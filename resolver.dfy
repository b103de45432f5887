/**
 * The resolver (lib/resolver.rs): a pass over the statements that keeps a
 * stack of block scopes, each mapping a name to whether its declaration has
 * been completed, and tells the interpreter at which depth each variable
 * reference and assignment was found.
 *
 * The resolver's state is the value `State`: the scope stack, whether the
 * code being resolved is inside a function, and the list of
 * `Interpreter::resolve` calls made so far. The visitors are the step
 * functions `ExprStep`/`StmtStep` over that state; the class `Resolver`
 * holds the same state in fields and its methods are proved to perform
 * exactly those steps.
 */
module Resolver {
  import opened Wrappers
  import opened Errors
  import opened Ast
  import Lang

  /** `FunctionType`: `None` at top level, `Function` inside a function body. */
  datatype FunctionType = TopLevel | InFunction

  /** A block scope: each declared name and whether its declaration is complete. */
  type Scope = map<string, bool>

  /**
   * The resolver's state. `resolved` lists the `Interpreter::resolve`
   * calls in the order they were made: the expression and the depth that
   * was recorded for it.
   */
  datatype State = State(scopes: seq<Scope>, functionType: FunctionType, resolved: seq<(Expr, nat)>)

  /**
   * How a visit ends: normally, with a language error, or with a panic of
   * the Rust program (a failed `assert!` on the scope stack, or the
   * `unimplemented!()` that enum declarations reach).
   */
  datatype Status = Done | Failed(error: LangError) | Panicked

  /** The status of a visit together with the state it leaves behind. */
  datatype Step = Step(status: Status, state: State)

  const RETURN_AT_TOP_LEVEL := "Cannot return from top-level code"

  /** The internal error for a variable read inside its own declaration. */
  function NotInScope(lexeme: string): (e: LangError)
    ensures e.InternalError?
  {
    NewIieError("the value with identifier " + lexeme + " was not in scope")
  }

  // ---------------------------------------------------------------- scope stack

  /** `Resolver::new`. */
  function New(): (st: State)
    ensures |st.scopes| == 1 && st.scopes[0] == map[]
    ensures st.functionType == TopLevel && st.resolved == []
  {
    State([map[]], TopLevel, [])
  }

  /** `begin_scope`: pushes an empty scope. */
  function BeginScope(st: State): (r: State)
    ensures |r.scopes| == |st.scopes| + 1 && r.scopes[..|st.scopes|] == st.scopes
    ensures r.scopes[|st.scopes|] == map[]
    ensures r.functionType == st.functionType && r.resolved == st.resolved
  {
    st.(scopes := st.scopes + [map[]])
  }

  /** `end_scope`: pops the innermost scope; popping an empty stack does nothing. */
  function EndScope(st: State): (r: State)
    ensures |st.scopes| > 0 ==> r.scopes == st.scopes[..|st.scopes| - 1]
    ensures |st.scopes| == 0 ==> r == st
    ensures r.functionType == st.functionType && r.resolved == st.resolved
  {
    if |st.scopes| == 0 then st else st.(scopes := st.scopes[..|st.scopes| - 1])
  }

  /** Ending a scope just begun gives back the state before it. */
  lemma EndScopeUndoesBeginScope(st: State)
    ensures EndScope(BeginScope(st)) == st
  {
    assert (st.scopes + [map[]])[..|st.scopes|] == st.scopes;
  }

  /** The innermost scope with `name` mapped to `flag`; the other scopes untouched. */
  function SetInnermost(scopes: seq<Scope>, name: string, flag: bool): (r: seq<Scope>)
    requires |scopes| > 0
    ensures |r| == |scopes| && r[..|scopes| - 1] == scopes[..|scopes| - 1]
    ensures r[|scopes| - 1] == scopes[|scopes| - 1][name := flag]
  {
    scopes[|scopes| - 1 := scopes[|scopes| - 1][name := flag]]
  }

  /** Every name of `before` outside `except` is still in `after`, with the same flag. */
  predicate KeepsFlags(before: Scope, after: Scope, except: set<string>)
  {
    forall k :: k in before && k !in except ==> k in after && after[k] == before[k]
  }

  /**
   * `declare`: an empty stack fails the `assert!` (so the internal error
   * the code would return next is never reached). A name the innermost
   * scope already holds keeps its flag; a new one is added as not yet
   * defined.
   */
  function Declare(st: State, name: Token): (r: Step)
    ensures r.status.Panicked? <==> |st.scopes| == 0
    ensures r.status.Panicked? ==> r.state == st
    ensures r.state.functionType == st.functionType && r.state.resolved == st.resolved
    ensures |st.scopes| > 0 ==>
      var n := |st.scopes|;
      && r.status.Done?
      && |r.state.scopes| == n && r.state.scopes[..n - 1] == st.scopes[..n - 1]
      && r.state.scopes[n - 1].Keys == st.scopes[n - 1].Keys + {name.lexeme}
      && KeepsFlags(st.scopes[n - 1], r.state.scopes[n - 1], {})
      && (name.lexeme !in st.scopes[n - 1] ==> !r.state.scopes[n - 1][name.lexeme])
  {
    if |st.scopes| == 0 then Step(Panicked, st)
    else if name.lexeme in st.scopes[|st.scopes| - 1] then Step(Done, st)
    else Step(Done, st.(scopes := SetInnermost(st.scopes, name.lexeme, false)))
  }

  /** `define`: marks the name as defined in the innermost scope, and nowhere else. */
  function Define(st: State, name: Token): (r: Step)
    ensures r.status.Panicked? <==> |st.scopes| == 0
    ensures r.status.Panicked? ==> r.state == st
    ensures r.state.functionType == st.functionType && r.state.resolved == st.resolved
    ensures |st.scopes| > 0 ==>
      var n := |st.scopes|;
      && r.status.Done?
      && |r.state.scopes| == n && r.state.scopes[..n - 1] == st.scopes[..n - 1]
      && r.state.scopes[n - 1].Keys == st.scopes[n - 1].Keys + {name.lexeme}
      && r.state.scopes[n - 1][name.lexeme]
      && KeepsFlags(st.scopes[n - 1], r.state.scopes[n - 1], {name.lexeme})
  {
    if |st.scopes| == 0 then Step(Panicked, st)
    else Step(Done, st.(scopes := SetInnermost(st.scopes, name.lexeme, true)))
  }

  /** Declaring then defining a name leaves it defined, whether or not it was declared before. */
  lemma DeclareThenDefine(st: State, name: Token)
    requires |st.scopes| > 0
    ensures var d := Define(Declare(st, name).state, name);
      d.status.Done? && d.state.scopes[|st.scopes| - 1][name.lexeme]
  {
  }

  /** Some scope of the stack holds `name`. */
  predicate InSomeScope(scopes: seq<Scope>, name: string)
  {
    exists i :: 0 <= i < |scopes| && name in scopes[i]
  }

  /**
   * `resolve_local`: when any scope holds the name, the interpreter is
   * told the depth of the innermost scope, `scopes.len() - 1`, whichever
   * scope holds it; when none does, nothing is recorded.
   */
  function ResolveLocal(st: State, e: Expr, name: Token): (r: State)
    ensures r.scopes == st.scopes && r.functionType == st.functionType
    ensures InSomeScope(st.scopes, name.lexeme) ==> r.resolved == st.resolved + [(e, |st.scopes| - 1)]
    ensures !InSomeScope(st.scopes, name.lexeme) ==> r.resolved == st.resolved
  {
    if InSomeScope(st.scopes, name.lexeme) then st.(resolved := st.resolved + [(e, |st.scopes| - 1)])
    else st
  }

  /** The recorded depth does not depend on which scope holds the name. */
  lemma ResolvedDepthIgnoresBindingScope(st: State, e: Expr, name: Token, i: nat)
    requires i < |st.scopes| && name.lexeme in st.scopes[i]
    ensures ResolveLocal(st, e, name).resolved[|st.resolved|] == (e, |st.scopes| - 1)
  {
  }

  // ---------------------------------------------------------------- visitors

  /** Expressions change nothing but the list of resolved expressions, which only grows. */
  predicate ExprSettled(st: State, r: Step)
  {
    r.state.scopes == st.scopes && r.state.functionType == st.functionType
    && st.resolved <= r.state.resolved && !r.status.Panicked?
  }

  /**
   * What every statement visit keeps: scopes outside the innermost one are
   * untouched, the stack never gets shallower, the resolved list only
   * grows; and a visit that ends normally leaves the depth and the
   * function type as it found them.
   */
  predicate Settled(st: State, r: Step)
  {
    && |r.state.scopes| >= |st.scopes|
    && (|st.scopes| > 0 ==> r.state.scopes[..|st.scopes| - 1] == st.scopes[..|st.scopes| - 1])
    && st.resolved <= r.state.resolved
    && (r.status.Done? ==> |r.state.scopes| == |st.scopes| && r.state.functionType == st.functionType)
  }

  /** The expression visitor (`Visitor<Expr> for Resolver`). */
  function ExprStep(st: State, e: Expr): (r: Step)
    ensures ExprSettled(st, r)
    decreases e, 0
  {
    match e
    case Binary(b) =>
      var l := ExprStep(st, b.left);
      if !l.status.Done? then l else ExprStep(l.state, b.right)
    case Call(c) =>
      var f := ExprStep(st, c.callee);
      if !f.status.Done? then f else ExprsStep(f.state, c.arguments)
    case Get(g) => ExprStep(st, g.obj)
    case Unary(u) => ExprStep(st, u.right)
    case Logical(l) =>
      var a := ExprStep(st, l.left);
      if !a.status.Done? then a else ExprStep(a.state, l.right)
    case Set(s) =>
      var v := ExprStep(st, s.value);
      if !v.status.Done? then v else ExprStep(v.state, s.obj)
    case Grouping(g) => ExprStep(st, g.expression)
    case Literal(_) => Step(Done, st)
    case Assign(a) =>
      var v := ExprStep(st, a.expr);
      if !v.status.Done? then v else Step(Done, ResolveLocal(v.state, e, a.name))
    case Variable(v) => VariableStep(st, e, v)
    case Index(i) => ExprStep(st, i.index)
    case Array(a) => ExprsStep(st, a.elements)
    case EnumPath(_) => Step(Done, st)
    case SetArrayElement(_) => Step(Done, st)
    case SelfIdent(s) => Step(Done, ResolveLocal(st, e, s.keyword))
  }

  /** A variable read: an error when the innermost scope has it declared but not yet defined. */
  function VariableStep(st: State, e: Expr, v: VariableExpr): (r: Step)
    ensures ExprSettled(st, r)
    ensures r.status.Failed? <==>
      |st.scopes| > 0 && v.name.lexeme in st.scopes[|st.scopes| - 1] && !st.scopes[|st.scopes| - 1][v.name.lexeme]
    ensures r.status.Failed? ==> r == Step(Failed(NotInScope(v.name.lexeme)), st)
    ensures r.status.Done? ==> r.state == ResolveLocal(st, e, v.name)
  {
    if |st.scopes| > 0 && v.name.lexeme in st.scopes[|st.scopes| - 1]
       && !st.scopes[|st.scopes| - 1][v.name.lexeme]
    then Step(Failed(NotInScope(v.name.lexeme)), st)
    else Step(Done, ResolveLocal(st, e, v.name))
  }

  /** Resolves the expressions in order, stopping at the first that does not end normally. */
  function ExprsStep(st: State, es: seq<Expr>): (r: Step)
    ensures ExprSettled(st, r)
    decreases es, 1
  {
    if es == [] then Step(Done, st)
    else
      var h := ExprStep(st, es[0]);
      if !h.status.Done? then h else ExprsStep(h.state, es[1..])
  }

  /** `resolve`: resolves the statements in order, stopping at the first that does not end normally. */
  function StmtsStep(st: State, ss: seq<Stmt>): (r: Step)
    ensures Settled(st, r)
    decreases ss, 1
  {
    if ss == [] then Step(Done, st)
    else
      var h := StmtStep(st, ss[0]);
      if !h.status.Done? then h else StmtsStep(h.state, ss[1..])
  }

  /** Declares and defines each parameter in turn (the loop of `resolve_function`). */
  function ParamsStep(st: State, params: seq<VariableData>): (r: Step)
    ensures r.state.functionType == st.functionType && r.state.resolved == st.resolved
    ensures |r.state.scopes| == |st.scopes|
    ensures |st.scopes| > 0 ==> r.status.Done? && r.state.scopes[..|st.scopes| - 1] == st.scopes[..|st.scopes| - 1]
    ensures |st.scopes| == 0 ==> r.status.Panicked? == (params != [])
    decreases params
  {
    if params == [] then Step(Done, st)
    else
      var d := Declare(st, params[0].identifier);
      if !d.status.Done? then d
      else
        var f := Define(d.state, params[0].identifier);
        if !f.status.Done? then f else ParamsStep(f.state, params[1..])
  }

  /**
   * `resolve_function`: resolves the body with the given function type
   * and the parameters defined in a scope of their own, then drops that
   * scope and restores the enclosing function type.
   */
  function FunctionStep(st: State, f: FunctionStmt, kind: FunctionType): (r: Step)
    ensures Settled(st, r)
    decreases f, 0
  {
    var inner := BeginScope(st.(functionType := kind));
    var p := ParamsStep(inner, f.params);
    if !p.status.Done? then p
    else
      var b := StmtsStep(p.state, f.body);
      if !b.status.Done? then b
      else Step(Done, EndScope(b.state).(functionType := st.functionType))
  }

  /** The statement visitor (`Visitor<Stmt> for Resolver`). */
  function StmtStep(st: State, s: Stmt): (r: Step)
    ensures Settled(st, r)
    decreases s, 0
  {
    match s
    case Enum(_) => Step(Panicked, st)
    case Break => Step(Done, st)
    case ImplTrait(_) => Step(Done, st)
    case Trait(t) => StmtsStep(st, t.traitFnDeclarations)
    case TraitFunction(t) =>
      var d := Declare(st, t.name);
      if !d.status.Done? then d else Define(d.state, t.name)
    case Impl(i) => StmtsStep(st, i.fnDeclarations)
    case Expression(x) => ExprStep(st, x.expression)
    case If(i) => IfStep(st, i)
    case Block(b) => BlockStep(st, b)
    case Struct(d) => StructStep(st, d)
    case Print(p) => ExprStep(st, p.expression)
    case Return(ret) => ReturnStep(st, ret)
    case While(w) => WhileStep(st, w)
    case Function(f) => FunctionDeclarationStep(st, f)
    case Var(v) => VarStep(st, v)
  }

  /** `if`: the condition, the then branch, and the else branch when there is one. */
  function IfStep(st: State, i: IfStmt): (r: Step)
    ensures Settled(st, r)
    decreases i, 0
  {
    var c := ExprStep(st, i.condition);
    if !c.status.Done? then c
    else
      var t := StmtStep(c.state, i.thenBranch);
      if !t.status.Done? || i.elseBranch.None? then t
      else StmtStep(t.state, i.elseBranch.value)
  }

  /** `while`: the condition, then the body once. */
  function WhileStep(st: State, w: WhileStmt): (r: Step)
    ensures Settled(st, r)
    decreases w, 0
  {
    var c := ExprStep(st, w.condition);
    if !c.status.Done? then c else StmtStep(c.state, w.body)
  }

  /** A function declaration: the name is declared and defined before the function itself is resolved. */
  function FunctionDeclarationStep(st: State, f: FunctionStmt): (r: Step)
    ensures Settled(st, r)
    decreases f, 1
  {
    var d := Declare(st, f.name);
    if !d.status.Done? then d
    else
      var n := Define(d.state, f.name);
      if !n.status.Done? then n else FunctionStep(n.state, f, InFunction)
  }

  /** A block: its statements are resolved in a scope of their own. */
  function BlockStep(st: State, b: BlockStmt): (r: Step)
    ensures Settled(st, r)
    decreases b, 0
  {
    var inner := StmtsStep(BeginScope(st), b.statements);
    if !inner.status.Done? then inner else Step(Done, EndScope(inner.state))
  }

  /**
   * A struct declaration: the name is declared, a scope holding `self`
   * is opened and closed again, and the name is defined.
   */
  function StructStep(st: State, d: StructStmt): (r: Step)
    ensures Settled(st, r)
  {
    var declared := Declare(st, d.name);
    if !declared.status.Done? then declared
    else
      var begun := BeginScope(declared.state);
      var withSelf := begun.(scopes := SetInnermost(begun.scopes, "self", true));
      Define(EndScope(withSelf), d.name)
  }

  /**
   * `return`: an error at top level; otherwise the returned expression is
   * resolved unless it is the unit literal of a bare `return;`.
   */
  function ReturnStep(st: State, ret: ReturnStmt): (r: Step)
    ensures Settled(st, r)
    ensures st.functionType.TopLevel? ==> r == Step(Failed(Lang.Error(ret.keyword, RETURN_AT_TOP_LEVEL)), st)
    ensures st.functionType.InFunction? && EqualsUnitLiteral(ret.value) ==> r == Step(Done, st)
    ensures st.functionType.InFunction? && !EqualsUnitLiteral(ret.value) ==> r == ExprStep(st, ret.value)
    decreases ret, 0
  {
    if st.functionType.TopLevel? then Step(Failed(Lang.Error(ret.keyword, RETURN_AT_TOP_LEVEL)), st)
    else if !EqualsUnitLiteral(ret.value) then ExprStep(st, ret.value)
    else Step(Done, st)
  }

  /**
   * `let`: the name is declared before the initializer is resolved and
   * defined after it, so the initializer cannot read the name it declares.
   */
  function VarStep(st: State, v: VarStmt): (r: Step)
    ensures Settled(st, r)
    decreases v, 0
  {
    var d := Declare(st, v.name);
    if !d.status.Done? then d
    else
      var i := if v.initializer.Some? then ExprStep(d.state, v.initializer.value) else Step(Done, d.state);
      if !i.status.Done? then i else Define(i.state, v.name)
  }

  // ---------------------------------------------------------------- properties

  /** A block that resolves normally leaves the scope stack exactly as it found it. */
  lemma BlockRestoresScopes(st: State, b: BlockStmt)
    requires BlockStep(st, b).status.Done?
    ensures BlockStep(st, b).state.scopes == st.scopes
    ensures BlockStep(st, b).state.functionType == st.functionType
  {
    var begun := BeginScope(st);
    var inner := StmtsStep(begun, b.statements);
    assert |begun.scopes| == |st.scopes| + 1;
    assert inner.state.scopes[..|st.scopes|] == begun.scopes[..|st.scopes|];
  }

  /** A function declaration that resolves normally restores the function type it found. */
  lemma FunctionRestoresFunctionType(st: State, f: FunctionStmt, kind: FunctionType)
    requires FunctionStep(st, f, kind).status.Done?
    ensures FunctionStep(st, f, kind).state.functionType == st.functionType
    ensures FunctionStep(st, f, kind).state.scopes == st.scopes
  {
    var inner := BeginScope(st.(functionType := kind));
    var p := ParamsStep(inner, f.params);
    var b := StmtsStep(p.state, f.body);
    assert p.state.scopes[..|st.scopes|] == st.scopes;
    assert b.state.scopes[..|st.scopes|] == p.state.scopes[..|st.scopes|];
  }

  /** The names of a parameter list. */
  function ParamNames(params: seq<VariableData>): (names: set<string>)
    ensures forall i :: 0 <= i < |params| ==> params[i].identifier.lexeme in names
    ensures forall n :: n in names ==> exists i :: 0 <= i < |params| && params[i].identifier.lexeme == n
  {
    set p | p in params :: p.identifier.lexeme
  }

  /**
   * After the parameters are declared and defined, the innermost scope
   * holds what it held before plus every parameter, each marked defined.
   */
  lemma {:induction false} ParamsAllDefined(st: State, params: seq<VariableData>)
    requires |st.scopes| > 0
    ensures var n := |st.scopes|;
      var inner := ParamsStep(st, params).state.scopes[n - 1];
      && inner.Keys == st.scopes[n - 1].Keys + ParamNames(params)
      && (forall k :: k in ParamNames(params) ==> inner[k])
      && (forall k :: k in st.scopes[n - 1] && k !in ParamNames(params) ==> inner[k] == st.scopes[n - 1][k])
    decreases params
  {
    if params != [] {
      var d := Declare(st, params[0].identifier);
      var f := Define(d.state, params[0].identifier);
      ParamsAllDefined(f.state, params[1..]);
      assert ParamNames(params) == {params[0].identifier.lexeme} + ParamNames(params[1..]) by {
        forall k | k in ParamNames(params)
          ensures k == params[0].identifier.lexeme || k in ParamNames(params[1..])
        {
          var i :| 0 <= i < |params| && params[i].identifier.lexeme == k;
          if i > 0 {
            assert params[1..][i - 1] == params[i];
          }
        }
      }
    }
  }

  /**
   * Resolving a function body happens with the parameters, all defined,
   * in a scope just above the scopes of the declaration.
   */
  lemma ParametersScope(st: State, f: FunctionStmt)
    ensures var p := ParamsStep(BeginScope(st.(functionType := InFunction)), f.params);
      && p.status.Done?
      && p.state.scopes[..|st.scopes|] == st.scopes
      && p.state.scopes[|st.scopes|].Keys == ParamNames(f.params)
      && (forall k :: k in ParamNames(f.params) ==> p.state.scopes[|st.scopes|][k])
  {
    var inner := BeginScope(st.(functionType := InFunction));
    ParamsAllDefined(inner, f.params);
  }

  /**
   * A `let` whose initializer reads the name being declared fails with
   * "was not in scope", when the name is new to the innermost scope.
   */
  lemma SelfReferenceInInitializerFails(st: State, v: VarStmt)
    requires |st.scopes| > 0 && v.name.lexeme !in st.scopes[|st.scopes| - 1]
    requires v.initializer.Some? && v.initializer.value.Variable?
    requires v.initializer.value.variableExpr.name.lexeme == v.name.lexeme
    ensures VarStep(st, v).status == Failed(NotInScope(v.name.lexeme))
  {
    var d := Declare(st, v.name);
    assert VariableStep(d.state, v.initializer.value, v.initializer.value.variableExpr).status.Failed?;
  }

  /**
   * Because redeclaration keeps the old flag, a `let` that reads a name
   * already defined in the same scope resolves normally.
   */
  lemma RedeclarationMayReadOldBinding(st: State, v: VarStmt)
    requires |st.scopes| > 0 && v.name.lexeme in st.scopes[|st.scopes| - 1]
    requires st.scopes[|st.scopes| - 1][v.name.lexeme]
    requires v.initializer.Some? && v.initializer.value.Variable?
    requires v.initializer.value.variableExpr.name.lexeme == v.name.lexeme
    ensures VarStep(st, v).status.Done?
  {
    var d := Declare(st, v.name);
    assert VariableStep(d.state, v.initializer.value, v.initializer.value.variableExpr).status.Done?;
  }

  /** A `return` at top level is rejected however deeply it sits in blocks. */
  lemma {:induction false} NestedTopLevelReturnFails(st: State, depth: nat, ret: ReturnStmt)
    requires st.functionType.TopLevel?
    ensures StmtStep(st, Nest(depth, Return(ret))).status == Failed(Lang.Error(ret.keyword, RETURN_AT_TOP_LEVEL))
    decreases depth
  {
    if depth > 0 {
      var begun := BeginScope(st);
      NestedTopLevelReturnFails(begun, depth - 1, ret);
      assert StmtsStep(begun, [Nest(depth - 1, Return(ret))]).status
          == StmtStep(begun, Nest(depth - 1, Return(ret))).status;
    }
  }

  /** A statement wrapped in `depth` blocks. */
  function Nest(depth: nat, s: Stmt): (r: Stmt)
    ensures depth == 0 ==> r == s
    ensures depth > 0 ==> r.Block? && r.blockStmt.statements == [Nest(depth - 1, s)]
  {
    if depth == 0 then s else Block(BlockStmt([Nest(depth - 1, s)]))
  }

  // ---------------------------------------------------------------- the resolver object

  /** `Resolver`: the scope stack and function type it updates, and what it has told the interpreter. */
  class Resolver {
    var scopes: seq<Scope>
    var functionType: FunctionType
    var resolved: seq<(Expr, nat)>

    function Snapshot(): State
      reads this
    {
      State(scopes, functionType, resolved)
    }

    /** `Resolver::new`. */
    constructor ()
      ensures Snapshot() == New()
    {
      scopes := [map[]];
      functionType := TopLevel;
      resolved := [];
    }

    /** `begin_scope`. */
    method BeginScopeM()
      modifies this
      ensures Snapshot() == BeginScope(old(Snapshot()))
    {
      scopes := scopes + [map[]];
    }

    /** `end_scope`. */
    method EndScopeM()
      modifies this
      ensures Snapshot() == EndScope(old(Snapshot()))
    {
      if |scopes| > 0 {
        scopes := scopes[..|scopes| - 1];
      }
    }

    /** `declare`. */
    method DeclareM(name: Token) returns (s: Status)
      modifies this
      ensures Step(s, Snapshot()) == Declare(old(Snapshot()), name)
    {
      if |scopes| == 0 {
        return Panicked;
      }
      if name.lexeme !in scopes[|scopes| - 1] {
        scopes := SetInnermost(scopes, name.lexeme, false);
      }
      return Done;
    }

    /** `define`. */
    method DefineM(name: Token) returns (s: Status)
      modifies this
      ensures Step(s, Snapshot()) == Define(old(Snapshot()), name)
    {
      if |scopes| == 0 {
        return Panicked;
      }
      scopes := SetInnermost(scopes, name.lexeme, true);
      return Done;
    }

    /** `resolve_local`: walks the scopes from the innermost outwards. */
    method ResolveLocalM(e: Expr, name: Token)
      modifies this
      ensures Snapshot() == ResolveLocal(old(Snapshot()), e, name)
    {
      var i := |scopes|;
      while i > 0
        invariant 0 <= i <= |scopes|
        invariant forall j :: i <= j < |scopes| ==> name.lexeme !in scopes[j]
      {
        i := i - 1;
        if name.lexeme in scopes[i] {
          resolved := resolved + [(e, |scopes| - 1)];
          return;
        }
      }
    }

    /** The expression visitor. */
    method VisitExpr(e: Expr) returns (s: Status)
      modifies this
      ensures Step(s, Snapshot()) == ExprStep(old(Snapshot()), e)
      decreases e, 0
    {
      match e
      case Binary(b) =>
        s := VisitExpr(b.left);
        if s.Done? { s := VisitExpr(b.right); }
      case Call(c) =>
        s := VisitExpr(c.callee);
        if s.Done? { s := VisitExprs(c.arguments); }
      case Get(g) => s := VisitExpr(g.obj);
      case Unary(u) => s := VisitExpr(u.right);
      case Logical(l) =>
        s := VisitExpr(l.left);
        if s.Done? { s := VisitExpr(l.right); }
      case Set(st) =>
        s := VisitExpr(st.value);
        if s.Done? { s := VisitExpr(st.obj); }
      case Grouping(g) => s := VisitExpr(g.expression);
      case Literal(_) => s := Done;
      case Assign(a) =>
        s := VisitExpr(a.expr);
        if s.Done? { ResolveLocalM(e, a.name); }
      case Variable(v) =>
        if |scopes| > 0 && v.name.lexeme in scopes[|scopes| - 1] && !scopes[|scopes| - 1][v.name.lexeme] {
          return Failed(NotInScope(v.name.lexeme));
        }
        ResolveLocalM(e, v.name);
        s := Done;
      case Index(i) => s := VisitExpr(i.index);
      case Array(a) => s := VisitExprs(a.elements);
      case EnumPath(_) => s := Done;
      case SetArrayElement(_) => s := Done;
      case SelfIdent(si) =>
        ResolveLocalM(e, si.keyword);
        s := Done;
    }

    method VisitExprs(es: seq<Expr>) returns (s: Status)
      modifies this
      ensures Step(s, Snapshot()) == ExprsStep(old(Snapshot()), es)
      decreases es, 1
    {
      s := Done;
      var i := 0;
      while i < |es|
        invariant 0 <= i <= |es|
        invariant ExprsStep(old(Snapshot()), es) ==
          (if s.Done? then ExprsStep(Snapshot(), es[i..]) else Step(s, Snapshot()))
      {
        if !s.Done? { break; }
        assert es[i..][1..] == es[i + 1..];
        s := VisitExpr(es[i]);
        i := i + 1;
      }
      if s.Done? { assert es[i..] == []; }
    }

    /** `resolve`: the statements in order, stopping at the first error. */
    method Resolve(ss: seq<Stmt>) returns (s: Status)
      modifies this
      ensures Step(s, Snapshot()) == StmtsStep(old(Snapshot()), ss)
      decreases ss, 1
    {
      s := Done;
      var i := 0;
      while i < |ss|
        invariant 0 <= i <= |ss|
        invariant StmtsStep(old(Snapshot()), ss) ==
          (if s.Done? then StmtsStep(Snapshot(), ss[i..]) else Step(s, Snapshot()))
      {
        if !s.Done? { break; }
        assert ss[i..][1..] == ss[i + 1..];
        s := VisitStmt(ss[i]);
        i := i + 1;
      }
      if s.Done? { assert ss[i..] == []; }
    }

    /** `resolve_function`. */
    method ResolveFunction(f: FunctionStmt, kind: FunctionType) returns (s: Status)
      modifies this
      ensures Step(s, Snapshot()) == FunctionStep(old(Snapshot()), f, kind)
      decreases f, 0
    {
      var enclosing := functionType;
      functionType := kind;
      BeginScopeM();
      ghost var inner := Snapshot();
      var i := 0;
      s := Done;
      while i < |f.params|
        invariant 0 <= i <= |f.params| && functionType == kind
        invariant ParamsStep(inner, f.params) ==
          (if s.Done? then ParamsStep(Snapshot(), f.params[i..]) else Step(s, Snapshot()))
      {
        if !s.Done? { break; }
        assert f.params[i..][1..] == f.params[i + 1..];
        s := DeclareM(f.params[i].identifier);
        if s.Done? { s := DefineM(f.params[i].identifier); }
        i := i + 1;
      }
      if !s.Done? { return; }
      assert f.params[i..] == [];
      s := Resolve(f.body);
      if !s.Done? { return; }
      EndScopeM();
      functionType := enclosing;
    }

    /** The statement visitor. */
    method VisitStmt(stmt: Stmt) returns (s: Status)
      modifies this
      ensures Step(s, Snapshot()) == StmtStep(old(Snapshot()), stmt)
      decreases stmt, 0
    {
      match stmt
      case Enum(_) => s := Panicked;
      case Break => s := Done;
      case ImplTrait(_) => s := Done;
      case Trait(t) => s := Resolve(t.traitFnDeclarations);
      case TraitFunction(t) =>
        s := DeclareM(t.name);
        if s.Done? { s := DefineM(t.name); }
      case Impl(i) => s := Resolve(i.fnDeclarations);
      case Expression(x) => s := VisitExpr(x.expression);
      case If(i) => s := VisitIf(i);
      case Block(b) => s := VisitBlock(b);
      case Struct(d) => s := DeclareStruct(d);
      case Print(p) => s := VisitExpr(p.expression);
      case Return(ret) => s := VisitReturn(ret);
      case While(w) => s := VisitWhile(w);
      case Function(f) => s := DeclareFunction(f);
      case Var(v) => s := DeclareVar(v);
    }

    /** A block statement: its statements in a scope of their own. */
    method VisitBlock(b: BlockStmt) returns (s: Status)
      modifies this
      ensures Step(s, Snapshot()) == BlockStep(old(Snapshot()), b)
      decreases b, 0
    {
      BeginScopeM();
      s := Resolve(b.statements);
      if s.Done? { EndScopeM(); }
    }

    /** A struct declaration. */
    method DeclareStruct(d: StructStmt) returns (s: Status)
      modifies this
      ensures Step(s, Snapshot()) == StructStep(old(Snapshot()), d)
    {
      s := DeclareM(d.name);
      if s.Done? {
        BeginScopeM();
        scopes := SetInnermost(scopes, "self", true);
        EndScopeM();
        s := DefineM(d.name);
      }
    }

    /** A `return` statement. */
    method VisitReturn(ret: ReturnStmt) returns (s: Status)
      modifies this
      ensures Step(s, Snapshot()) == ReturnStep(old(Snapshot()), ret)
      decreases ret, 0
    {
      if functionType.TopLevel? {
        return Failed(Lang.Error(ret.keyword, RETURN_AT_TOP_LEVEL));
      }
      s := Done;
      if !EqualsUnitLiteral(ret.value) { s := VisitExpr(ret.value); }
    }

    /** A `let` declaration. */
    method DeclareVar(v: VarStmt) returns (s: Status)
      modifies this
      ensures Step(s, Snapshot()) == VarStep(old(Snapshot()), v)
      decreases v, 0
    {
      s := DeclareM(v.name);
      if s.Done? && v.initializer.Some? { s := VisitExpr(v.initializer.value); }
      if s.Done? { s := DefineM(v.name); }
    }

    /** An `if` statement. */
    method VisitIf(i: IfStmt) returns (s: Status)
      modifies this
      ensures Step(s, Snapshot()) == IfStep(old(Snapshot()), i)
      decreases i, 0
    {
      s := VisitExpr(i.condition);
      if s.Done? {
        s := VisitStmt(i.thenBranch);
        if s.Done? && i.elseBranch.Some? { s := VisitStmt(i.elseBranch.value); }
      }
    }

    /** A `while` statement. */
    method VisitWhile(w: WhileStmt) returns (s: Status)
      modifies this
      ensures Step(s, Snapshot()) == WhileStep(old(Snapshot()), w)
      decreases w, 0
    {
      s := VisitExpr(w.condition);
      if s.Done? { s := VisitStmt(w.body); }
    }

    /** A function declaration. */
    method DeclareFunction(f: FunctionStmt) returns (s: Status)
      modifies this
      ensures Step(s, Snapshot()) == FunctionDeclarationStep(old(Snapshot()), f)
      decreases f, 1
    {
      s := DeclareM(f.name);
      if s.Done? { s := DefineM(f.name); }
      if s.Done? { s := ResolveFunction(f, InFunction); }
    }
  }
}
