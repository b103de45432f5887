/**
 * Type annotations and token types (lib/token.rs): the hand-written
 * equality on annotations, their `Display`, and the conversions between
 * token types and annotations.
 */
module Types {
  import opened Wrappers
  import opened Errors

  datatype TypeAnnotation =
    | I32 | I64 | F32 | F64 | String | Bool | Trait | Unit | Fn
    | Array(element: TypeAnnotation)
    | SelfIndex
    | User(name: string)

  /**
   * The source's `PartialEq for TypeAnnotation`. It is not Dafny's
   * structural `==`: `Fn`, `Trait` and `SelfIndex` equal nothing, and a
   * user type and `Unit` are interchangeable.
   */
  predicate TypeEq(a: TypeAnnotation, b: TypeAnnotation)
  {
    match a
    case I32 => b.I32?
    case SelfIndex => false
    case I64 => b.I64?
    case F32 => b.F32?
    case F64 => b.F64?
    case String => b.String?
    case Bool => b.Bool?
    case Fn => false
    case Trait => false
    case Array(l) => b.Array? && TypeEq(l, b.element)
    case User(l) => (b.User? && l == b.name) || b.Unit?
    case Unit => b.User? || b.Unit?
  }

  predicate IsPrimitive(t: TypeAnnotation)
  {
    t.I32? || t.I64? || t.F32? || t.F64? || t.String? || t.Bool?
  }

  /** The primitive annotations are each equal only to themselves. */
  lemma PrimitiveEqOnlyItself(t: TypeAnnotation, u: TypeAnnotation)
    requires IsPrimitive(t)
    ensures TypeEq(t, u) <==> u == t
    ensures TypeEq(u, t) <==> u == t
  {
  }

  /** `Fn`, `Trait` and `SelfIndex` are unequal to everything, themselves included. */
  lemma NeverEqual(t: TypeAnnotation, u: TypeAnnotation)
    requires t.Fn? || t.Trait? || t.SelfIndex?
    ensures !TypeEq(t, u) && !TypeEq(u, t)
  {
  }

  /** A user type equals `Unit` both ways, and another user type only by name. */
  lemma UserTypeEquality(a: string, b: string)
    ensures TypeEq(User(a), Unit) && TypeEq(Unit, User(a))
    ensures TypeEq(User(a), User(b)) <==> a == b
  {
  }

  /** So equality is not transitive. */
  lemma TypeEqNotTransitive()
    ensures TypeEq(User("A"), Unit) && TypeEq(Unit, User("B")) && !TypeEq(User("A"), User("B"))
  {
  }

  /** Arrays compare their element annotations. */
  lemma ArrayEquality(a: TypeAnnotation, b: TypeAnnotation)
    ensures TypeEq(Array(a), Array(b)) <==> TypeEq(a, b)
  {
  }

  lemma {:induction false} TypeEqSymmetric(a: TypeAnnotation, b: TypeAnnotation)
    ensures TypeEq(a, b) <==> TypeEq(b, a)
  {
    match a
    case Array(l) =>
      if b.Array? { TypeEqSymmetric(l, b.element); }
    case _ =>
  }

  /** The annotations that are equal to themselves: no `Fn`, `Trait` or `SelfIndex` inside. */
  predicate SelfComparable(t: TypeAnnotation)
  {
    match t
    case Fn => false
    case Trait => false
    case SelfIndex => false
    case Array(e) => SelfComparable(e)
    case _ => true
  }

  lemma {:induction false} TypeEqReflexiveExactly(t: TypeAnnotation)
    ensures TypeEq(t, t) <==> SelfComparable(t)
  {
    match t
    case Array(e) => TypeEqReflexiveExactly(e);
    case _ =>
  }

  /** `Display for TypeAnnotation`. */
  function DisplayType(t: TypeAnnotation): string
  {
    match t
    case I32 => "i32"
    case SelfIndex => "self"
    case I64 => "i64"
    case F32 => "f32"
    case F64 => "f64"
    case Bool => "bool"
    case Trait => "trait"
    case Unit => "()"
    case Fn => "fn"
    case String => "String"
    case Array(e) => "Array<" + DisplayType(e) + ">"
    case User(n) => n
  }

  /** The rendered names of the built-in annotations. */
  predicate ReservedName(s: string)
  {
    s in {"i32", "self", "i64", "f32", "f64", "bool", "trait", "()", "fn", "String"}
  }

  predicate LooksLikeArray(s: string)
  {
    |s| >= 7 && s[..6] == "Array<" && s[|s| - 1] == '>'
  }

  /** Reads an annotation back from its rendering. */
  function ParseDisplayedType(s: string): TypeAnnotation
    decreases |s|
  {
    match s
    case "i32" => I32
    case "self" => SelfIndex
    case "i64" => I64
    case "f32" => F32
    case "f64" => F64
    case "bool" => Bool
    case "trait" => Trait
    case "()" => Unit
    case "fn" => Fn
    case "String" => String
    case _ => if LooksLikeArray(s) then Array(ParseDisplayedType(s[6..|s| - 1])) else User(s)
  }

  /** User type names that cannot be mistaken for another rendering. */
  predicate PlainNames(t: TypeAnnotation)
  {
    match t
    case Array(e) => PlainNames(e)
    case User(n) => !ReservedName(n) && !LooksLikeArray(n)
    case _ => true
  }

  /** `Display` loses nothing as long as user type names are plain. */
  lemma {:induction false} DisplayTypeRoundTrip(t: TypeAnnotation)
    requires PlainNames(t)
    ensures ParseDisplayedType(DisplayType(t)) == t
  {
    match t
    case Array(e) =>
      var s := DisplayType(t);
      assert s == "Array<" + DisplayType(e) + ">";
      assert s[..6] == "Array<";
      assert s[6..|s| - 1] == DisplayType(e);
      assert !ReservedName(s) by { assert |s| >= 7; }
      DisplayTypeRoundTrip(e);
    case _ =>
  }

  /** `TypeAnnotation::is_array`. */
  predicate IsArray(t: TypeAnnotation)
  {
    t.Array?
  }

  /** `TypeAnnotation::get_array_element_type`. */
  function GetArrayElementType(t: TypeAnnotation): (r: Result<TypeAnnotation, LangError>)
    ensures r.Ok? <==> IsArray(t)
    ensures r.Ok? ==> t == Array(r.value)
    ensures r.Err? ==> r.error == InternalError("failed to get array element type")
  {
    if t.Array? then Ok(t.element) else Err(NewIieError("failed to get array element type"))
  }

  /** `TokenType`. */
  datatype TokenType =
    | Break | LeftParen | RightParen | LeftBrace | RightBrace | LeftBracket | Enum
    | RightBracket | Colon | Comma | Dot | Minus | Plus | SemiColon | Slash | Star
    | Bang | BangEqual | Equal | EqualEqual | Greater | GreaterEqual | Less
    | ReturnType | LessEqual | Identifier | StringLit | Float | Integer | And
    | Struct | DoubleQuote | Else | False | Import | FnKw | For | If | UnitKw
    | Ternary | Or | Print | Return | Impl | TraitKw | True | Let | While
    | PathSeparator | Type(annotation: TypeAnnotation) | SelfIdent | Eof

  /**
   * The derived `PartialEq for TokenType`: constructors must match, and a
   * `Type` payload is compared with `TypeEq`.
   */
  predicate TokenTypeEq(a: TokenType, b: TokenType)
  {
    if a.Type? then b.Type? && TypeEq(a.annotation, b.annotation) else a == b
  }

  lemma TokenTypeEqProperties(a: TokenType, b: TokenType)
    ensures !a.Type? ==> (TokenTypeEq(a, b) <==> a == b)
    ensures a.Type? && b.Type? ==> (TokenTypeEq(a, b) <==> TypeEq(a.annotation, b.annotation))
    ensures TokenTypeEq(a, b) ==> a.Type? == b.Type?
  {
  }

  /** `TypeAnnotation::from_token_type`. */
  function FromTokenType(tt: TokenType): (r: Result<TypeAnnotation, LangError>)
    ensures r.Ok? <==> tt.Type?
    ensures r.Ok? ==> r.value == tt.annotation
    ensures r.Err? ==> r.error == ParserError("failed type annotation extraction")
  {
    if tt.Type? then Ok(tt.annotation) else Err(NewParserError("failed type annotation extraction"))
  }

  /** `Display for TokenType`. */
  function DisplayTokenType(tt: TokenType): string
  {
    match tt
    case Break => "break"
    case Enum => "enum"
    case LeftParen => "("
    case RightParen => ")"
    case LeftBrace => "{"
    case RightBrace => "}"
    case LeftBracket => "["
    case RightBracket => "]"
    case Comma => ","
    case Dot => "."
    case Minus => "-"
    case Plus => "+"
    case Colon => ":"
    case SemiColon => ";"
    case Slash => "/"
    case Star => "*"
    case Bang => "!"
    case BangEqual => "!="
    case ReturnType => "->"
    case Equal => "="
    case EqualEqual => "=="
    case Greater => ">"
    case GreaterEqual => ">="
    case DoubleQuote => "\""
    case Less => "<"
    case LessEqual => "<="
    case Identifier => "identifier"
    case StringLit => "string"
    case Float => "float"
    case Integer => "integer"
    case And => "and"
    case Struct => "struct"
    case Else => "else"
    case False => "false"
    case PathSeparator => "::"
    case FnKw => "fn"
    case For => "for"
    case If => "if"
    case UnitKw => "()"
    case Or => "or"
    case Import => "import"
    case Print => "print"
    case Return => "return"
    case Ternary => "?"
    case Impl => "impl"
    case TraitKw => "trait"
    case True => "true"
    case Let => "let"
    case While => "while"
    case SelfIdent => "self"
    case Type(t) => "Type(" + DisplayType(t) + ")"
    case Eof => "EoF"
  }

  /** `TokenType::to_type_annotation`: the error names the offending token type. */
  function ToTypeAnnotation(tt: TokenType): (r: Result<TypeAnnotation, LangError>)
    ensures r.Ok? <==> tt.Type?
    ensures r.Ok? ==> r.value == tt.annotation
    ensures r.Err? ==> r.error == ParserError("Failed type annotation extraction: " + DisplayTokenType(tt))
  {
    if tt.Type? then Ok(tt.annotation)
    else Err(NewParserError("Failed type annotation extraction: " + DisplayTokenType(tt)))
  }

  /** The two conversions accept and return the same annotations; only their messages differ. */
  lemma ConversionsAgree(tt: TokenType)
    ensures FromTokenType(tt).Ok? == ToTypeAnnotation(tt).Ok?
    ensures FromTokenType(tt).Ok? ==> FromTokenType(tt).value == ToTypeAnnotation(tt).value
  {
  }

  /**
   * `TypeAnnotation::check_token_type2`. The error is built by
   * `Lang::error_ir`, which is not part of this model; it is a parameter
   * taking the token's line and lexeme and the message.
   */
  function CheckTokenType2(tt: TokenType, line: nat, lexeme: string,
                           errorIr: (nat, string, string) -> LangError): (r: Result<(), LangError>)
    ensures r.Ok? <==> (tt.Type? || tt == Identifier)
    ensures r.Err? ==> r.error == errorIr(line, lexeme,
      "invalid type annotation expected a type annotation, found '" + DisplayTokenType(tt) + "'")
  {
    if tt.Type? || tt == Identifier then Ok(())
    else Err(errorIr(line, lexeme,
      "invalid type annotation expected a type annotation, found '" + DisplayTokenType(tt) + "'"))
  }
}
