/**
 * The syntax tree (lib/ast/expr.rs and lib/ast/stmt.rs): one datatype per
 * expression and statement form, each wrapped by a constructor of `Expr`
 * or `Stmt`, and the `TryInto` projections that unwrap a payload or fail
 * with an internal error.
 *
 * The tree holds parser tokens: a token type, the lexeme it was read from,
 * its line and the value the scanner attached to it.
 */
module Ast {
  import opened Wrappers
  import opened Errors
  import Types
  import Values

  /** A parser token. */
  datatype Token = Token(tokenType: Types.TokenType, lexeme: string, line: nat, value: Values.Value)

  // ---------------------------------------------------------------- expressions

  datatype Expr =
    | Assign(assignExpr: AssignExpr)
    | Binary(binaryExpr: BinaryExpr)
    | Call(callExpr: CallExpr)
    | Get(getExpr: GetExpr)
    | EnumPath(enumPathExpr: EnumPathExpr)
    | Grouping(groupingExpr: GroupingExpr)
    | Literal(literalExpr: LiteralExpr)
    | Logical(logicalExpr: LogicalExpr)
    | Set(setExpr: SetExpr)
    | Unary(unaryExpr: UnaryExpr)
    | Array(arrayExpr: ArrayExpr)
    | Index(indexExpr: IndexExpr)
    | SetArrayElement(setArrayElementExpr: SetArrayElementExpr)
    | Variable(variableExpr: VariableExpr)
    | SelfIdent(selfIdentExpr: SelfIdentExpr)

  datatype SelfIdentExpr = SelfIdentExpr(keyword: Token)
  datatype SetArrayElementExpr = SetArrayElementExpr(index: Expr, name: Token, value: Expr)
  datatype EnumPathExpr = EnumPathExpr(name: Token, pathItems: seq<Token>)
  datatype AssignExpr = AssignExpr(expr: Expr, name: Token)
  datatype IndexExpr = IndexExpr(index: Expr, from: Token)
  datatype ArrayExpr = ArrayExpr(typeAnnotation: Option<Token>, elements: seq<Expr>)
  datatype BinaryExpr = BinaryExpr(left: Expr, operator: Token, right: Expr)
  datatype CallExpr = CallExpr(arguments: seq<Expr>, callee: Expr)
  datatype GetExpr = GetExpr(name: Token, obj: Expr)
  datatype GroupingExpr = GroupingExpr(expression: Expr)
  datatype LiteralExpr = LiteralExpr(value: Values.TypedValue)
  datatype LogicalExpr = LogicalExpr(left: Expr, operator: Token, right: Expr)
  /** `name` is the field being set, `obj` the struct whose field it is, `value` the new contents. */
  datatype SetExpr = SetExpr(name: Token, obj: Expr, value: Expr)
  datatype UnaryExpr = UnaryExpr(operator: Token, right: Expr)
  datatype VariableExpr = VariableExpr(name: Token)

  /** `LiteralExpr::new`. */
  function NewLiteralExpr(value: Values.TypedValue): (l: LiteralExpr)
    ensures l.value == value
  {
    LiteralExpr(value)
  }

  /** The literal `()` that the parser puts in a `return` with no value. */
  function UnitLiteral(): (e: Expr)
    ensures e.Literal? && e.literalExpr.value == Values.TypedValue(Values.Unit, Types.Unit)
  {
    Literal(NewLiteralExpr(Values.TypedValue(Values.Unit, Types.Unit)))
  }

  /**
   * The derived `PartialEq for Expr`, as far as it is used: comparing an
   * expression with the unit literal. Only a literal can be equal to it,
   * and then the typed values are compared with their own equality.
   */
  predicate EqualsUnitLiteral(e: Expr)
  {
    e.Literal? && Values.TypedValueEq(e.literalExpr.value, Values.TypedValue(Values.Unit, Types.Unit))
  }

  /** The unit literal is equal to itself, so a `return;` is recognised as carrying no value. */
  lemma UnitLiteralRecognised()
    ensures EqualsUnitLiteral(UnitLiteral())
  {
  }

  /** `TryInto<&AssignExpr> for &Expr`. */
  function AsAssign(e: Expr): (r: Result<AssignExpr, LangError>)
    ensures r.Ok? <==> e.Assign?
    ensures r.Ok? ==> Assign(r.value) == e
    ensures r.Err? ==> r.error == InternalError("expected assignment expression")
  {
    if e.Assign? then Ok(e.assignExpr) else Err(NewIieError(ErrorMessage(ExpectExpr("assignment"))))
  }

  /** `Into<Expr> for &AssignExpr`. */
  function AssignIntoExpr(a: AssignExpr): (e: Expr)
    ensures e.Assign?
  {
    Assign(a)
  }

  /** Wrapping an assignment and projecting it back gives the same assignment. */
  lemma AssignRoundTrip(a: AssignExpr)
    ensures AsAssign(AssignIntoExpr(a)) == Ok(a)
  {
  }

  /** Projecting an assignment expression and wrapping it again gives the same expression. */
  lemma AssignProjectionRoundTrip(e: Expr)
    requires AsAssign(e).Ok?
    ensures AssignIntoExpr(AsAssign(e).value) == e
  {
  }

  /** `TryInto<&CallExpr> for &Expr`. */
  function AsCall(e: Expr): (r: Result<CallExpr, LangError>)
    ensures r.Ok? <==> e.Call?
    ensures r.Ok? ==> Call(r.value) == e
    ensures r.Err? ==> r.error == InternalError("expected call expression")
  {
    if e.Call? then Ok(e.callExpr) else Err(NewIieError(ErrorMessage(ExpectExpr("call"))))
  }

  /** `TryInto<&GetExpr> for &Expr`. */
  function AsGet(e: Expr): (r: Result<GetExpr, LangError>)
    ensures r.Ok? <==> e.Get?
    ensures r.Ok? ==> Get(r.value) == e
    ensures r.Err? ==> r.error == InternalError("expected get expression")
  {
    if e.Get? then Ok(e.getExpr) else Err(NewIieError(ErrorMessage(ExpectExpr("get"))))
  }

  /** `TryInto<&UnaryExpr> for &Expr`. */
  function AsUnary(e: Expr): (r: Result<UnaryExpr, LangError>)
    ensures r.Ok? <==> e.Unary?
    ensures r.Ok? ==> Unary(r.value) == e
    ensures r.Err? ==> r.error == InternalError("expected unary expression")
  {
    if e.Unary? then Ok(e.unaryExpr) else Err(NewIieError(ErrorMessage(ExpectExpr("unary"))))
  }

  /** `TryInto<&LogicalExpr> for &Expr`. */
  function AsLogical(e: Expr): (r: Result<LogicalExpr, LangError>)
    ensures r.Ok? <==> e.Logical?
    ensures r.Ok? ==> Logical(r.value) == e
    ensures r.Err? ==> r.error == InternalError("expected logical expression")
  {
    if e.Logical? then Ok(e.logicalExpr) else Err(NewIieError(ErrorMessage(ExpectExpr("logical"))))
  }

  /** `TryInto<&SetExpr> for &Expr`. */
  function AsSet(e: Expr): (r: Result<SetExpr, LangError>)
    ensures r.Ok? <==> e.Set?
    ensures r.Ok? ==> Set(r.value) == e
    ensures r.Err? ==> r.error == InternalError("expected set expression")
  {
    if e.Set? then Ok(e.setExpr) else Err(NewIieError(ErrorMessage(ExpectExpr("set"))))
  }

  /** `TryInto<&SetArrayElementExpr> for &Expr`. */
  function AsSetArrayElement(e: Expr): (r: Result<SetArrayElementExpr, LangError>)
    ensures r.Ok? <==> e.SetArrayElement?
    ensures r.Ok? ==> SetArrayElement(r.value) == e
    ensures r.Err? ==> r.error == InternalError("expected " + "set array element" + " expression")
  {
    if e.SetArrayElement? then Ok(e.setArrayElementExpr)
    else Err(NewIieError(ErrorMessage(ExpectExpr("set array element"))))
  }

  /** `TryInto<&ArrayExpr> for &Expr`. */
  function AsArray(e: Expr): (r: Result<ArrayExpr, LangError>)
    ensures r.Ok? <==> e.Array?
    ensures r.Ok? ==> Expr.Array(r.value) == e
    ensures r.Err? ==> r.error == InternalError("expected array expression")
  {
    if e.Array? then Ok(e.arrayExpr) else Err(NewIieError(ErrorMessage(ExpectExpr("array"))))
  }

  /** `TryInto<&IndexExpr> for &Expr`. */
  function AsIndex(e: Expr): (r: Result<IndexExpr, LangError>)
    ensures r.Ok? <==> e.Index?
    ensures r.Ok? ==> Index(r.value) == e
    ensures r.Err? ==> r.error == InternalError("expected index expression")
  {
    if e.Index? then Ok(e.indexExpr) else Err(NewIieError(ErrorMessage(ExpectExpr("index"))))
  }

  // ---------------------------------------------------------------- statements

  datatype Stmt =
    | Break
    | Enum(enumStmt: EnumStmt)
    | Impl(implStmt: ImplStmt)
    | ImplTrait(implTraitStmt: ImplTraitStmt)
    | Block(blockStmt: BlockStmt)
    | Struct(structStmt: StructStmt)
    | Expression(expressionStmt: ExpressionStmt)
    | Trait(traitStmt: TraitStmt)
    | TraitFunction(traitFunctionStmt: TraitFunctionStmt)
    | Function(functionStmt: FunctionStmt)
    | If(ifStmt: IfStmt)
    | Print(printStmt: PrintStmt)
    | Return(returnStmt: ReturnStmt)
    | Var(varStmt: VarStmt)
    | While(whileStmt: WhileStmt)

  /** A named, annotated slot: a struct field or a function parameter. */
  datatype VariableData = VariableData(identifier: Token, typeAnnotation: Types.TypeAnnotation)
  datatype EnumItem = EnumItem(identifier: Token, initializer: Option<Expr>)
  datatype EnumStmt = EnumStmt(name: Token, itemList: seq<EnumItem>)
  datatype ImplStmt = ImplStmt(name: Token, fnDeclarations: seq<Stmt>)
  datatype ImplTraitStmt = ImplTraitStmt(traitName: Token, implName: Token, fnDeclarations: seq<Stmt>)
  datatype BlockStmt = BlockStmt(statements: seq<Stmt>)
  datatype StructStmt = StructStmt(fields: seq<VariableData>, name: Token)
  datatype ExpressionStmt = ExpressionStmt(expression: Expr)
  datatype TraitStmt = TraitStmt(name: Token, traitFnDeclarations: seq<Stmt>)
  datatype TraitFunctionStmt = TraitFunctionStmt(name: Token, returnType: Token, params: seq<VariableData>)
  datatype FunctionStmt = FunctionStmt(name: Token, returnType: Token, params: seq<VariableData>, body: seq<Stmt>)
  datatype IfStmt = IfStmt(condition: Expr, elseBranch: Option<Stmt>, thenBranch: Stmt)
  datatype PrintStmt = PrintStmt(expression: Expr)
  datatype ReturnStmt = ReturnStmt(keyword: Token, value: Expr)
  datatype VarStmt = VarStmt(initializer: Option<Expr>, typeAnnotation: Token, name: Token)
  datatype WhileStmt = WhileStmt(body: Stmt, condition: Expr)

  /** `VariableData::new`. */
  function NewVariableData(identifier: Token, typeAnnotation: Types.TypeAnnotation): (d: VariableData)
    ensures d.identifier == identifier && d.typeAnnotation == typeAnnotation
  {
    VariableData(identifier, typeAnnotation)
  }

  /** `TryInto<ImplStmt> for Stmt` (by value): the error carries no reason. */
  function IntoImpl(s: Stmt): (r: Result<ImplStmt, LangError>)
    ensures r.Ok? <==> s.Impl?
    ensures r.Ok? ==> Impl(r.value) == s
    ensures r.Err? ==> r.error == InternalError("")
  {
    if s.Impl? then Ok(s.implStmt) else Err(NewIieError(""))
  }

  /** `TryInto<&ImplStmt> for &Stmt`. */
  function AsImpl(s: Stmt): (r: Result<ImplStmt, LangError>)
    ensures r.Ok? <==> s.Impl?
    ensures r.Ok? ==> Impl(r.value) == s
    ensures r.Err? ==> r.error == InternalError("expected impl statement")
  {
    if s.Impl? then Ok(s.implStmt) else Err(NewIieError(ErrorMessage(ExpectStmt("impl"))))
  }

  /** The by-value and by-reference projections agree on success and differ only in the error text. */
  lemma ImplProjectionsAgree(s: Stmt)
    ensures IntoImpl(s).Ok? <==> AsImpl(s).Ok?
    ensures IntoImpl(s).Ok? ==> IntoImpl(s).value == AsImpl(s).value
    ensures IntoImpl(s).Err? ==> IntoImpl(s).error != AsImpl(s).error
  {
  }

  /** `TryInto<&ImplTraitStmt> for &Stmt`. */
  function AsImplTrait(s: Stmt): (r: Result<ImplTraitStmt, LangError>)
    ensures r.Ok? <==> s.ImplTrait?
    ensures r.Ok? ==> ImplTrait(r.value) == s
    ensures r.Err? ==> r.error == InternalError("expected impl trait statement")
  {
    if s.ImplTrait? then Ok(s.implTraitStmt) else Err(NewIieError(ErrorMessage(ExpectStmt("impl trait"))))
  }

  /** `TryInto<&TraitStmt> for &Stmt`. */
  function AsTrait(s: Stmt): (r: Result<TraitStmt, LangError>)
    ensures r.Ok? <==> s.Trait?
    ensures r.Ok? ==> Trait(r.value) == s
    ensures r.Err? ==> r.error == InternalError("expected trait statement")
  {
    if s.Trait? then Ok(s.traitStmt) else Err(NewIieError(ErrorMessage(ExpectStmt("trait"))))
  }

  /** `TryInto<&StructStmt> for &Stmt`. */
  function AsStruct(s: Stmt): (r: Result<StructStmt, LangError>)
    ensures r.Ok? <==> s.Struct?
    ensures r.Ok? ==> Struct(r.value) == s
    ensures r.Err? ==> r.error == InternalError("expected struct statement")
  {
    if s.Struct? then Ok(s.structStmt) else Err(NewIieError(ErrorMessage(ExpectStmt("struct"))))
  }
}
