/**
 * The tree-walking evaluator (lib/interpreter.rs), for the fragment made of
 * truthiness, unary, binary and short-circuit operators, array literals and
 * indexing, variable reads, `let`, `print`, `if`, `while`/`break`, `return`
 * and blocks.
 *
 * The interpreter's state is the value `Machine`: the id of the current
 * environment entry, the environment's entries (names bound to arena
 * slots, as in lib/env.rs), the arena's slots, and the lines printed so
 * far. Expressions are evaluated by the function `Eval`; statements are
 * executed by `Exec`, and the class `Interpreter` holds the same state in
 * fields and executes statements with loops proved to agree with `Exec`.
 *
 * Every step ends in a `Values.Outcome`: a value, a language error, a
 * panic of the Rust program (overflow, an index out of range, a call to
 * `unimplemented!()`, a chain of entries that never ends), or
 * `Unmodelled` for what this model does not determine.
 */
module Interpreter {
  import opened Wrappers
  import opened Errors
  import opened Ast
  import Types
  import opened Values
  import opened Mem
  import Env

  const UNIT: TypedValue := TypedValue(Value.Unit, Types.Unit)

  const BAD_BINARY_OP := "attempted to execute a binary operation with an incorrect token"
  const INDEX_NON_ARRAY := "Tried to index a non-array value. This should never happen"

  // ---------------------------------------------------------------- operators

  /** `is_truthy`: `Unit` and `false` are falsy; every other value is truthy. */
  function IsTruthy(v: Value): (b: bool)
    ensures b <==> !(v.Unit? || v == Value.Boolean(false))
  {
    if ValueEq(v, Value.Unit) then false
    else match v
      case Boolean(b) => b
      case _ => true
  }

  predicate IsArithmetic(tt: Types.TokenType)
  {
    tt.Plus? || tt.Minus? || tt.Star? || tt.Slash?
  }

  predicate IsComparison(tt: Types.TokenType)
  {
    tt.Greater? || tt.GreaterEqual? || tt.Less? || tt.LessEqual? || tt.BangEqual? || tt.EqualEqual?
  }

  /** An arithmetic result, annotated with `t`. */
  function Annotate(o: Outcome<Value>, t: Types.TypeAnnotation): (r: Outcome<TypedValue>)
    ensures r.Yield? <==> o.Yield?
    ensures r.Yield? ==> r.value == TypedValue(o.value, t)
    ensures !o.Yield? ==> r == o.PropagateFailure()
  {
    var v :- o;
    Yield(TypedValue(v, t))
  }

  /**
   * A comparison through `partial_cmp`: true when the ordering is one of
   * `accepted`. Two floats are not ordered by this model.
   */
  function Compare(l: Value, r: Value, accepted: set<Ordering>): (o: Outcome<TypedValue>)
    ensures o.Yield? <==> Cmp(l, r).Some?
    ensures o.Yield? ==> o.value == TypedValue(Value.Boolean(Cmp(l, r).value in accepted), Types.Bool)
    ensures !o.Yield? ==> o.Unmodelled?
  {
    match Cmp(l, r)
    case None => Unmodelled
    case Some(ord) => Yield(TypedValue(Value.Boolean(ord in accepted), Types.Bool))
  }

  /**
   * `execute_binary_op`: `+ - * /` keep the left operand's annotation,
   * comparisons and (in)equality give a `bool`, and any other operator is
   * an internal error.
   */
  function ExecuteBinaryOp(op: Token, left: TypedValue, right: TypedValue): (r: Outcome<TypedValue>)
    ensures IsArithmetic(op.tokenType) && r.Yield? ==> r.value.valueType == left.valueType
    ensures op.tokenType.Plus? ==> (r.Yield? <==> Add(left.value, right.value).Yield?)
    ensures op.tokenType.Plus? && r.Yield? ==> r.value.value == Add(left.value, right.value).value
    ensures op.tokenType.Minus? ==> r == Annotate(Sub(left.value, right.value), left.valueType)
    ensures op.tokenType.Star? ==> r == Annotate(Mul(left.value, right.value), left.valueType)
    ensures op.tokenType.Slash? ==> r == Annotate(Div(left.value, right.value), left.valueType)
    ensures op.tokenType.Less? ==> r == Compare(left.value, right.value, {Ordering.Less})
    ensures op.tokenType.LessEqual? ==> r == Compare(left.value, right.value, {Ordering.Less, Ordering.Equal})
    ensures op.tokenType.Greater? ==> r == Compare(left.value, right.value, {Ordering.Greater})
    ensures op.tokenType.GreaterEqual? ==> r == Compare(left.value, right.value, {Ordering.Greater, Ordering.Equal})
    ensures IsComparison(op.tokenType) && r.Yield? ==> r.value.valueType == Types.Bool && r.value.value.Boolean?
    ensures IsComparison(op.tokenType) ==> r.Yield? || r.Unmodelled?
    ensures op.tokenType.EqualEqual? ==> r == Yield(TypedValue(Value.Boolean(ValueEq(left.value, right.value)), Types.Bool))
    ensures op.tokenType.BangEqual? ==> r == Yield(TypedValue(Value.Boolean(!ValueEq(left.value, right.value)), Types.Bool))
    ensures !IsArithmetic(op.tokenType) && !IsComparison(op.tokenType) ==> r == Fail(InternalError(BAD_BINARY_OP))
  {
    match op.tokenType
    case Plus => Annotate(Add(left.value, right.value), left.valueType)
    case Minus => Annotate(Sub(left.value, right.value), left.valueType)
    case Star => Annotate(Mul(left.value, right.value), left.valueType)
    case Slash => Annotate(Div(left.value, right.value), left.valueType)
    case Greater => Compare(left.value, right.value, {Ordering.Greater})
    case GreaterEqual => Compare(left.value, right.value, {Ordering.Greater, Ordering.Equal})
    case Less => Compare(left.value, right.value, {Ordering.Less})
    case LessEqual => Compare(left.value, right.value, {Ordering.Less, Ordering.Equal})
    case BangEqual => Yield(TypedValue(Value.Boolean(!ValueEq(left.value, right.value)), Types.Bool))
    case EqualEqual => Yield(TypedValue(Value.Boolean(ValueEq(left.value, right.value)), Types.Bool))
    case _ => Fail(NewIieError(BAD_BINARY_OP))
  }

  /** An operator token of the given type. */
  function OpToken(tt: Types.TokenType): Token
  {
    Token(tt, "", 0, Value.Unit)
  }

  /** On integers, `a >= b` is the negation of `a < b`, and `a > b` is `b < a`. */
  lemma IntegerComparisonsAgree(a: i64, b: i64)
    ensures var x := TypedValue(Value.Int64(a), Types.I64);
      var y := TypedValue(Value.Int64(b), Types.I64);
      && ExecuteBinaryOp(OpToken(Types.GreaterEqual), x, y).value.value.b
         == !ExecuteBinaryOp(OpToken(Types.Less), x, y).value.value.b
      && ExecuteBinaryOp(OpToken(Types.Greater), x, y) == ExecuteBinaryOp(OpToken(Types.Less), y, x)
      && ExecuteBinaryOp(OpToken(Types.Less), x, y).value.value.b == (a < b)
  {
  }

  /**
   * `visit_unary_expr`: `-` negates 32- and 64-bit integers (the most
   * negative one overflows and panics) and leaves a float undetermined;
   * `!` gives the negated truthiness; anything else is the unit value.
   */
  function UnaryOp(op: Types.TokenType, right: TypedValue): (r: Outcome<TypedValue>)
    ensures op.Bang? ==> r == Yield(TypedValue(Value.Boolean(!IsTruthy(right.value)), Types.Bool))
    ensures op.Minus? && right.value.Int64? ==>
      (r.Yield? <==> right.value.i64v != I64_MIN)
      && (r.Yield? ==> r.value == TypedValue(Value.Int64(-right.value.i64v), Types.I64))
      && (!r.Yield? ==> r.Panic?)
    ensures op.Minus? && right.value.Int32? ==>
      (r.Yield? <==> right.value.i32v != I32_MIN)
      && (r.Yield? ==> r.value == TypedValue(Value.Int32(-right.value.i32v), Types.I32))
      && (!r.Yield? ==> r.Panic?)
    ensures op.Minus? && right.value.Float64? ==> r.Unmodelled?
    ensures op.Minus? && !(right.value.Int32? || right.value.Int64? || right.value.Float64?) ==> r == Yield(UNIT)
    ensures !op.Minus? && !op.Bang? ==> r == Yield(UNIT)
  {
    match op
    case Minus =>
      (match right.value
       case Int32(i) => if i == I32_MIN then Panic else Yield(TypedValue(Value.Int32(-i), Types.I32))
       case Int64(i) => if i == I64_MIN then Panic else Yield(TypedValue(Value.Int64(-i), Types.I64))
       case Float64(_) => Unmodelled
       case _ => Yield(UNIT))
    case Bang => Yield(TypedValue(Value.Boolean(!IsTruthy(right.value)), Types.Bool))
    case _ => Yield(UNIT)
  }

  /** Negating an integer twice gives it back, whenever the first negation does not overflow. */
  lemma NegationInvolutive(x: TypedValue)
    requires (x.value.Int64? && x.value.i64v != I64_MIN && x.valueType == Types.I64)
          || (x.value.Int32? && x.value.i32v != I32_MIN && x.valueType == Types.I32)
    ensures UnaryOp(Types.Minus, x).Yield?
    ensures UnaryOp(Types.Minus, UnaryOp(Types.Minus, x).value) == Yield(x)
  {
  }

  /** `!!v` is the truthiness of `v`, as a `bool`. */
  lemma DoubleBangIsTruthiness(x: TypedValue)
    ensures UnaryOp(Types.Bang, UnaryOp(Types.Bang, x).value) == Yield(TypedValue(Value.Boolean(IsTruthy(x.value)), Types.Bool))
  {
  }

  /**
   * `visit_logical_expr`: `or` stops at a truthy left operand, and every
   * other logical operator (`and`) stops at a falsy one.
   */
  predicate ShortCircuits(op: Types.TokenType, left: Value)
  {
    if op.Or? then IsTruthy(left) else !IsTruthy(left)
  }

  /** `visit_array_expr`: annotated as an array of its last element's type, or of `()` when empty. */
  function ArrayLiteral(items: seq<TypedValue>): (r: TypedValue)
    ensures r.value == Value.Array(items)
    ensures r.valueType.Array?
    ensures items == [] ==> r.valueType.element == Types.Unit
    ensures items != [] ==> r.valueType.element == items[|items| - 1].valueType
  {
    TypedValue(Value.Array(items), Types.Array(if items == [] then Types.Unit else items[|items| - 1].valueType))
  }

  /** The error for an index past the end of an array. */
  function OutOfBounds(index: nat, length: nat): LangError
  {
    RuntimeError(GenericError("Index out of bounds. Tried to index at " + NatToString(index)
                              + " for an array of length " + NatToString(length)))
  }

  /** The element access of `visit_index_expr`, once the index and the array are known. */
  function IndexInto(v: TypedValue, index: nat): (r: Outcome<TypedValue>)
    ensures r.Yield? <==> v.value.Array? && index < |v.value.items|
    ensures r.Yield? ==> r.value == v.value.items[index]
    ensures v.value.Array? && index >= |v.value.items| ==> r == Fail(OutOfBounds(index, |v.value.items|))
    ensures !v.value.Array? ==> r == Fail(RuntimeError(GenericError(INDEX_NON_ARRAY)))
  {
    match v.value
    case Array(arr) => if index < |arr| then Yield(arr[index]) else Fail(OutOfBounds(index, |arr|))
    case _ => Fail(NewRuntimeError(GenericError(INDEX_NON_ARRAY)))
  }

  // ---------------------------------------------------------------- environment

  /**
   * The interpreter's state: the current entry, the environment's
   * entries, the arena's slots, and the lines `print` has written.
   */
  datatype Machine = Machine(envId: nat, entries: seq<Env.EnvironmentEntry>,
                             slots: seq<ArenaEntry<TypedValue>>, output: seq<string>)

  /** `Interpreter::new`: a default (empty) environment given one fresh entry, which is current. */
  function NewMachine(): (m: Machine)
    ensures m.envId == 0 && m.entries == [Env.FRESH_ENTRY] && m.slots == [] && m.output == []
  {
    Machine(0, [Env.FRESH_ENTRY], [], [])
  }

  /**
   * Reading `name` from entry `id` outwards, as `get_two` does, then the
   * value in the arena slot it names. Indexing past the entries or the
   * slots panics, and so does a chain longer than `fuel` links, which
   * can only be a chain that loops (the Rust recursion overflows its
   * stack).
   */
  function LookupFrom(entries: seq<Env.EnvironmentEntry>, slots: seq<ArenaEntry<TypedValue>>,
                      id: nat, name: string, fuel: nat): (r: Outcome<TypedValue>)
    ensures r.Yield? ==> Occupied(r.value) in slots
    ensures id < |entries| && name in entries[id].values && entries[id].values[name] < |slots| ==>
      r == (if slots[entries[id].values[name]].Occupied? then Yield(slots[entries[id].values[name]].value)
            else Fail(InternalError(EMPTY_ENTRY_REASON)))
    decreases fuel
  {
    if id >= |entries| then Panic
    else if name in entries[id].values then
      var slot := entries[id].values[name];
      if slot >= |slots| then Panic
      else match EntryValue(slots[slot])
        case Ok(v) => Yield(v)
        case Err(e) => Fail(e)
    else match entries[id].enclosing
      case None => Fail(Env.UndefinedGet(name))
      case Some(e) => if fuel == 0 then Panic else LookupFrom(entries, slots, e, name, fuel - 1)
  }

  /** A variable read from the current entry. */
  function Lookup(m: Machine, name: string): Outcome<TypedValue>
  {
    LookupFrom(m.entries, m.slots, m.envId, name, |m.entries|)
  }

  /** Every slot an entry binds is a slot of the arena. */
  predicate SlotsInArena(entries: seq<Env.EnvironmentEntry>, slots: seq<ArenaEntry<TypedValue>>)
  {
    forall j, n :: 0 <= j < |entries| && n in entries[j].values ==> entries[j].values[n] < |slots|
  }

  /**
   * When the chain of the current entry ends within the lookup's bound and
   * the bindings stay inside the arena, the lookup is `get_two` followed
   * by reading the arena slot: it never panics.
   */
  lemma {:induction false} LookupIsGetTwo(entries: seq<Env.EnvironmentEntry>, slots: seq<ArenaEntry<TypedValue>>,
                                          id: nat, name: string, fuel: nat)
    requires Env.ChainEnds(entries, id) && Env.EndsWithin(entries, id, fuel) && SlotsInArena(entries, slots)
    ensures Env.GetTwo(entries, id, name).Err? ==> LookupFrom(entries, slots, id, name, fuel) == Fail(Env.UndefinedGet(name))
    ensures Env.GetTwo(entries, id, name).Ok? ==>
      var slot := Env.GetTwo(entries, id, name).value;
      slot < |slots| &&
      LookupFrom(entries, slots, id, name, fuel) ==
        (if slots[slot].Occupied? then Yield(slots[slot].value) else Fail(InternalError(EMPTY_ENTRY_REASON)))
    decreases fuel
  {
    if name !in entries[id].values && entries[id].enclosing.Some? {
      Env.ChainStep(entries, id);
      LookupIsGetTwo(entries, slots, entries[id].enclosing.value, name, fuel - 1);
    }
  }

  /**
   * `define`: stores the value in a new slot at the end of the arena and
   * binds the name to it in the current entry; a current id past the
   * entries panics.
   */
  function DefineHere(m: Machine, name: string, v: TypedValue): (r: Run)
    ensures m.envId >= |m.entries| ==> r == Run(Panic, m)
    ensures m.envId < |m.entries| ==>
      r.outcome == Yield(UNIT) && r.machine.envId == m.envId && r.machine.output == m.output
      && r.machine.slots == m.slots + [Occupied(v)]
      && r.machine.entries == Env.Bind(m.entries, m.envId, name, |m.slots|)
  {
    if m.envId >= |m.entries| then Run(Panic, m)
    else Run(Yield(UNIT), m.(entries := Env.Bind(m.entries, m.envId, name, |m.slots|),
                             slots := m.slots + [Occupied(v)]))
  }

  /** A name just defined reads back as the value it was given. */
  lemma ReadAfterDefine(m: Machine, name: string, v: TypedValue)
    requires m.envId < |m.entries|
    ensures Lookup(DefineHere(m, name, v).machine, name) == Yield(v)
  {
    var m1 := DefineHere(m, name, v).machine;
    assert m1.entries[m.envId].values[name] == |m.slots|;
    assert m1.slots[|m.slots|] == Occupied(v);
  }

  // ---------------------------------------------------------------- expressions

  /**
   * The expression visitor. A literal of a user type, assignments, calls,
   * field access and the set forms go through environment and struct
   * APIs that are not part of this model. A grouping evaluates to the unit
   * value, as the visitor returns it without evaluating the inner
   * expression.
   */
  function Eval(m: Machine, e: Expr): (r: Outcome<TypedValue>)
    ensures e.Binary? && r.Yield? ==> Eval(m, e.binaryExpr.left).Yield? && Eval(m, e.binaryExpr.right).Yield?
    ensures e.Logical? ==> r == Eval(m, e.logicalExpr.left) || r == Eval(m, e.logicalExpr.right)
    decreases e, 1
  {
    match e
    case Binary(b) =>
      var left :- Eval(m, b.left);
      var right :- Eval(m, b.right);
      ExecuteBinaryOp(b.operator, left, right)
    case Unary(u) =>
      var right :- Eval(m, u.right);
      UnaryOp(u.operator.tokenType, right)
    case Logical(l) =>
      var left :- Eval(m, l.left);
      if ShortCircuits(l.operator.tokenType, left.value) then Yield(left) else Eval(m, l.right)
    case Array(a) =>
      var items :- EvalAll(m, a.elements);
      Yield(ArrayLiteral(items))
    case Index(i) =>
      var index :- Eval(m, i.index);
      var n :- AsArrayIndex(index);
      var target :- Lookup(m, i.from.lexeme);
      IndexInto(target, n)
    case Literal(l) => if l.value.valueType.User? then Unmodelled else Yield(l.value)
    case Variable(v) => Lookup(m, v.name.lexeme)
    case EnumPath(_) => Yield(UNIT)
    case Grouping(_) => Yield(UNIT)
    case Assign(_) => Unmodelled
    case Call(_) => Unmodelled
    case Get(_) => Unmodelled
    case Set(_) => Unmodelled
    case SetArrayElement(_) => Unmodelled
    case SelfIdent(_) => Unmodelled
  }

  /**
   * The elements of an array literal, evaluated left to right; the first
   * that does not yield a value ends the evaluation.
   */
  function EvalAll(m: Machine, es: seq<Expr>): (r: Outcome<seq<TypedValue>>)
    ensures r.Yield? ==> |r.value| == |es| && forall i :: 0 <= i < |es| ==> Eval(m, es[i]) == Yield(r.value[i])
    ensures !r.Yield? ==>
      exists k :: 0 <= k < |es| && !Eval(m, es[k]).Yield? && Eval(m, es[k]).PropagateFailure<seq<TypedValue>>() == r && forall i :: 0 <= i < k ==> Eval(m, es[i]).Yield?
    decreases es, 0
  {
    if es == [] then Yield([])
    else
      var head :- Eval(m, es[0]);
      var tail :- EvalAll(m, es[1..]);
      Yield([head] + tail)
  }

  /** `or` with a truthy left operand, and `and` with a falsy one, never evaluate the right operand. */
  lemma ShortCircuitIgnoresRight(m: Machine, left: Expr, op: Token, right1: Expr, right2: Expr)
    requires Eval(m, left).Yield? && ShortCircuits(op.tokenType, Eval(m, left).value.value)
    ensures Eval(m, Logical(LogicalExpr(left, op, right1))) == Eval(m, left)
    ensures Eval(m, Logical(LogicalExpr(left, op, right1))) == Eval(m, Logical(LogicalExpr(left, op, right2)))
  {
  }

  /** Otherwise the logical expression is its right operand. */
  lemma NoShortCircuitIsRight(m: Machine, left: Expr, op: Token, right: Expr)
    requires Eval(m, left).Yield? && !ShortCircuits(op.tokenType, Eval(m, left).value.value)
    ensures Eval(m, Logical(LogicalExpr(left, op, right))) == Eval(m, right)
  {
  }

  /**
   * `or` and `and` give back one of their operands rather than a boolean,
   * but its truthiness is the disjunction (for `or`) or the conjunction
   * (for `and`) of the operands' truthiness.
   */
  lemma LogicalTruthiness(m: Machine, left: Expr, op: Token, right: Expr)
    requires Eval(m, left).Yield? && Eval(m, right).Yield?
    ensures var r := Eval(m, Logical(LogicalExpr(left, op, right)));
      var l := IsTruthy(Eval(m, left).value.value);
      var rt := IsTruthy(Eval(m, right).value.value);
      && r.Yield?
      && (op.tokenType.Or? ==> (IsTruthy(r.value.value) <==> l || rt))
      && (!op.tokenType.Or? ==> (IsTruthy(r.value.value) <==> l && rt))
  {
  }

  /**
   * An array literal whose elements all evaluate is annotated with its
   * last element's type, and indexing a variable holding it gives each
   * element back.
   */
  lemma ArrayLiteralThenIndex(m: Machine, es: seq<Expr>, i: nat)
    requires Eval(m, Expr.Array(ArrayExpr(None, es))).Yield?
    requires i < |es|
    ensures var a := Eval(m, Expr.Array(ArrayExpr(None, es))).value;
      |a.value.items| == |es| && IndexInto(a, i) == Eval(m, es[i])
  {
  }

  // ---------------------------------------------------------------- statements

  /** The outcome of executing a statement and the state it leaves. */
  datatype Run = Run(outcome: Outcome<TypedValue>, machine: Machine)

  /** The error of a `let` whose initializer's type differs from its annotation. */
  function VarTypeMismatch(declared: Types.TypeAnnotation, found: Types.TypeAnnotation): LangError
  {
    RuntimeError(InvalidTypeAssignmentError("Tried to assign a variable of type " + Types.DisplayType(declared)
                                            + " with an initializer of type " + Types.DisplayType(found)))
  }

  /** A statement's own value is dropped: a run that yields becomes one that yields the unit value. */
  function Unitize(r: Run): (u: Run)
    ensures u.machine == r.machine
    ensures r.outcome.Yield? ==> u.outcome == Yield(UNIT)
    ensures !r.outcome.Yield? ==> u == r
  {
    if r.outcome.Yield? then Run(Yield(UNIT), r.machine) else r
  }

  /**
   * The statement visitor. `fuel` bounds the number of iterations of each
   * `while` loop; a loop that would run longer ends as `Unmodelled`.
   * Declarations of structs, traits, impls and functions go through APIs
   * that are not part of this model; an `enum` reaches `unimplemented!()`.
   */
  function Exec(m: Machine, s: Stmt, fuel: nat): (r: Run)
    ensures r.outcome.Yield? && !s.Return? ==> r.outcome.value == UNIT
    ensures s.Return? && EqualsUnitLiteral(s.returnStmt.value) ==> r == Run(Yield(UNIT), m)
    ensures s.Return? && !EqualsUnitLiteral(s.returnStmt.value) ==> r == Run(Eval(m, s.returnStmt.value), m)
    decreases fuel, s, 0
  {
    match s
    case Enum(_) => Run(Panic, m)
    case Break => Run(Fail(ControlFlow(Flow.Break)), m)
    case Expression(x) =>
      var v := Eval(m, x.expression);
      Run(if v.Yield? then Yield(UNIT) else v, m)
    case Print(p) =>
      var v := Eval(m, p.expression);
      if !v.Yield? then Run(v, m)
      else Run(Yield(UNIT), m.(output := m.output + [Display(v.value.value)]))
    case Return(ret) =>
      if !EqualsUnitLiteral(ret.value) then Run(Eval(m, ret.value), m) else Run(Yield(UNIT), m)
    case Block(b) =>
      var id := |m.entries|;
      var entered := m.(entries := m.entries + [Env.EnvironmentEntry(map[], Some(m.envId))]);
      Unitize(ExecuteBlock(entered, b.statements, id, fuel))
    case If(i) => ExecIf(m, i, fuel)
    case While(w) =>
      var c := Eval(m, w.condition);
      if !c.Yield? then Run(c, m) else WhileLoop(m, w, c.value, fuel)
    case Var(v) => ExecVar(m, v)
    case ImplTrait(_) => Run(Unmodelled, m)
    case Trait(_) => Run(Unmodelled, m)
    case TraitFunction(_) => Run(Unmodelled, m)
    case Impl(_) => Run(Unmodelled, m)
    case Struct(_) => Run(Unmodelled, m)
    case Function(_) => Run(Unmodelled, m)
  }

  /**
   * `let`: the initializer (the unit value when there is none) must have
   * the declared annotation under `TypeAnnotation` equality; the value is
   * then defined in the current entry.
   */
  function ExecVar(m: Machine, v: VarStmt): (r: Run)
    ensures r.outcome.Yield? ==> r.outcome.value == UNIT
    ensures r.machine.output == m.output
    ensures var init := if v.initializer.Some? then Eval(m, v.initializer.value) else Yield(UNIT);
      && (!init.Yield? ==> r == Run(init, m))
      && (init.Yield? && !Types.ToTypeAnnotation(v.typeAnnotation.tokenType).Ok? ==>
            r == Run(Fail(Types.ToTypeAnnotation(v.typeAnnotation.tokenType).error), m))
    ensures Types.ToTypeAnnotation(v.typeAnnotation.tokenType).Ok? ==>
      var declared := Types.ToTypeAnnotation(v.typeAnnotation.tokenType).value;
      var init := if v.initializer.Some? then Eval(m, v.initializer.value) else Yield(UNIT);
      && (init.Yield? && !Types.TypeEq(declared, init.value.valueType) ==>
            r == Run(Fail(VarTypeMismatch(declared, init.value.valueType)), m))
      && (init.Yield? && Types.TypeEq(declared, init.value.valueType) ==>
            r == DefineHere(m, v.name.lexeme, init.value))
  {
    var init := if v.initializer.Some? then Eval(m, v.initializer.value) else Yield(UNIT);
    if !init.Yield? then Run(init, m)
    else match Types.ToTypeAnnotation(v.typeAnnotation.tokenType)
      case Err(e) => Run(Fail(e), m)
      case Ok(declared) =>
        if !Types.TypeEq(declared, init.value.valueType) then
          Run(Fail(VarTypeMismatch(declared, init.value.valueType)), m)
        else DefineHere(m, v.name.lexeme, init.value)
  }

  /**
   * `if`, as evidently intended: the then-branch when the condition is
   * truthy, otherwise the else-branch if there is one.
   */
  function ExecIf(m: Machine, i: IfStmt, fuel: nat): (r: Run)
    ensures !Eval(m, i.condition).Yield? ==> r == Run(Eval(m, i.condition), m)
    ensures r.outcome.Yield? ==> r.outcome.value == UNIT
    decreases fuel, i, 0
  {
    var c := Eval(m, i.condition);
    if !c.Yield? then Run(c, m)
    else if IsTruthy(c.value.value) then Unitize(Exec(m, i.thenBranch, fuel))
    else if i.elseBranch.Some? then Unitize(Exec(m, i.elseBranch.value, fuel))
    else Run(Yield(UNIT), m)
  }

  /**
   * The `while` loop once its condition has been evaluated to `cond`: a
   * `ControlFlow` error from the body (a `break`) ends the loop normally,
   * any other error ends it with that error, and the condition is
   * evaluated again after each normal run of the body.
   */
  function WhileLoop(m: Machine, w: WhileStmt, cond: TypedValue, fuel: nat): (r: Run)
    ensures !IsTruthy(cond.value) ==> r == Run(Yield(UNIT), m)
    ensures IsTruthy(cond.value) && fuel > 0 ==>
      var b := Exec(m, w.body, fuel);
      && (b.outcome.Fail? && b.outcome.error.ControlFlow? ==> r == Run(Yield(UNIT), b.machine))
      && (b.outcome.Fail? && !b.outcome.error.ControlFlow? ==> r == b)
    ensures r.outcome.Yield? ==> r.outcome.value == UNIT
    decreases fuel, w, 0
  {
    if !IsTruthy(cond.value) then Run(Yield(UNIT), m)
    else if fuel == 0 then Run(Unmodelled, m)
    else
      var b := Exec(m, w.body, fuel);
      if b.outcome.Fail? && b.outcome.error.ControlFlow? then Run(Yield(UNIT), b.machine)
      else if !b.outcome.Yield? then b
      else
        var c := Eval(b.machine, w.condition);
        if !c.Yield? then Run(c, b.machine) else WhileLoop(b.machine, w, c.value, fuel - 1)
  }

  /**
   * The statement loop of `execute_block`: each statement in turn; a
   * `return` statement's value is the block's value and ends the loop.
   */
  function BlockBody(m: Machine, stmts: seq<Stmt>, fuel: nat): (r: Run)
    ensures stmts == [] ==> r == Run(Yield(UNIT), m)
    decreases fuel, stmts, 1
  {
    if stmts == [] then Run(Yield(UNIT), m)
    else if stmts[0].Return? then Exec(m, stmts[0], fuel)
    else
      var h := Exec(m, stmts[0], fuel);
      if !h.outcome.Yield? then h else BlockBody(h.machine, stmts[1..], fuel)
  }

  /**
   * `execute_block`: runs the statements in entry `id`; when they complete
   * it removes the current entry and makes the previous one current again.
   * A statement that fails leaves the block's entry current.
   */
  function ExecuteBlock(m: Machine, stmts: seq<Stmt>, id: nat, fuel: nat): (r: Run)
    ensures var body := BlockBody(m.(envId := id), stmts, fuel);
      && (!body.outcome.Yield? ==> r == body)
      && (body.outcome.Yield? && body.machine.envId < |body.machine.entries| ==>
            r.outcome == body.outcome && r.machine.envId == m.envId
            && r.machine.entries == RemoveAt(body.machine.entries, body.machine.envId))
      && (body.outcome.Yield? && body.machine.envId >= |body.machine.entries| ==> r.outcome.Panic?)
    decreases fuel, stmts, 2
  {
    var body := BlockBody(m.(envId := id), stmts, fuel);
    if !body.outcome.Yield? then body
    else if body.machine.envId >= |body.machine.entries| then Run(Panic, body.machine)
    else Run(body.outcome, body.machine.(entries := RemoveAt(body.machine.entries, body.machine.envId),
                                         envId := m.envId))
  }

  /**
   * `interpret`: the program's statements in turn, stopping at the first
   * one that does not complete; a `return` at this level does not stop it.
   */
  function Interpret(m: Machine, stmts: seq<Stmt>, fuel: nat): (r: Run)
    ensures r.outcome.Yield? ==> r.outcome.value == UNIT
    decreases stmts
  {
    if stmts == [] then Run(Yield(UNIT), m)
    else
      var h := Exec(m, stmts[0], fuel);
      if !h.outcome.Yield? then h else Interpret(h.machine, stmts[1..], fuel)
  }

  /**
   * Running a program in two parts is running the first part and, when
   * it completes, the second part from where the first left off.
   */
  lemma {:induction false} InterpretSequential(m: Machine, first: seq<Stmt>, second: seq<Stmt>, fuel: nat)
    ensures var a := Interpret(m, first, fuel);
      Interpret(m, first + second, fuel) == (if a.outcome.Yield? then Interpret(a.machine, second, fuel) else a)
    decreases first
  {
    if first == [] {
      assert first + second == second;
    } else {
      assert (first + second)[0] == first[0];
      assert (first + second)[1..] == first[1..] + second;
      var h := Exec(m, first[0], fuel);
      if h.outcome.Yield? {
        InterpretSequential(h.machine, first[1..], second, fuel);
      }
    }
  }

  // ---------------------------------------------------------------- properties of statements

  /** No statement of the list is a `return`. */
  predicate NoReturn(stmts: seq<Stmt>)
  {
    forall j :: 0 <= j < |stmts| ==> !stmts[j].Return?
  }

  /** A block without `return` statements that completes has the unit value. */
  lemma {:induction false} BlockWithoutReturnIsUnit(m: Machine, stmts: seq<Stmt>, fuel: nat)
    requires NoReturn(stmts)
    ensures BlockBody(m, stmts, fuel).outcome.Yield? ==> BlockBody(m, stmts, fuel).outcome.value == UNIT
    decreases stmts
  {
    if stmts != [] {
      var h := Exec(m, stmts[0], fuel);
      if h.outcome.Yield? {
        BlockWithoutReturnIsUnit(h.machine, stmts[1..], fuel);
      }
    }
  }

  /** Statements after the first `return` of a block are never executed. */
  lemma {:induction false} BlockStopsAtFirstReturn(m: Machine, stmts: seq<Stmt>, k: nat, fuel: nat)
    requires k < |stmts| && stmts[k].Return? && NoReturn(stmts[..k])
    ensures BlockBody(m, stmts, fuel) == BlockBody(m, stmts[..k + 1], fuel)
    decreases k
  {
    if k > 0 {
      assert !stmts[0].Return? by { assert stmts[..k][0] == stmts[0]; }
      var h := Exec(m, stmts[0], fuel);
      if h.outcome.Yield? {
        assert stmts[1..][..k - 1] == stmts[..k][1..];
        BlockStopsAtFirstReturn(h.machine, stmts[1..], k - 1, fuel);
        assert stmts[..k + 1][1..] == stmts[1..][..k];
      }
    }
  }

  /**
   * A block's value is that of its first `return`: when the statements
   * before it complete, the block is that `return` run where they left off.
   */
  lemma {:induction false} BlockReturnsFirstReturnValue(m: Machine, stmts: seq<Stmt>, k: nat, fuel: nat)
    requires k < |stmts| && stmts[k].Return? && NoReturn(stmts[..k])
    requires BlockBody(m, stmts[..k], fuel).outcome.Yield?
    ensures BlockBody(m, stmts, fuel) == Exec(BlockBody(m, stmts[..k], fuel).machine, stmts[k], fuel)
    ensures var ret := stmts[k].returnStmt;
      var before := BlockBody(m, stmts[..k], fuel).machine;
      BlockBody(m, stmts, fuel).outcome ==
        (if EqualsUnitLiteral(ret.value) then Yield(UNIT) else Eval(before, ret.value))
    decreases k
  {
    if k > 0 {
      assert stmts[..k][0] == stmts[0];
      assert !stmts[0].Return?;
      var h := Exec(m, stmts[0], fuel);
      assert stmts[..k][1..] == stmts[1..][..k - 1];
      assert h.outcome.Yield?;
      BlockReturnsFirstReturnValue(h.machine, stmts[1..], k - 1, fuel);
    }
  }

  /**
   * Output is only ever appended to: whatever a statement does, and
   * whether or not it completes, the lines printed before it stay printed.
   */
  lemma {:induction false} ExecKeepsOutput(m: Machine, s: Stmt, fuel: nat)
    ensures m.output <= Exec(m, s, fuel).machine.output
    decreases fuel, s, 0
  {
    match s
    case Block(b) =>
      var entered := m.(entries := m.entries + [Env.EnvironmentEntry(map[], Some(m.envId))]);
      ExecuteBlockKeepsOutput(entered, b.statements, |m.entries|, fuel);
    case If(i) => IfKeepsOutput(m, i, fuel);
    case While(w) =>
      var c := Eval(m, w.condition);
      if c.Yield? {
        WhileKeepsOutput(m, w, c.value, fuel);
      }
    case _ =>
  }

  lemma {:induction false} IfKeepsOutput(m: Machine, i: IfStmt, fuel: nat)
    ensures m.output <= ExecIf(m, i, fuel).machine.output
    decreases fuel, i, 0
  {
    var c := Eval(m, i.condition);
    if c.Yield? {
      if IsTruthy(c.value.value) {
        ExecKeepsOutput(m, i.thenBranch, fuel);
      } else if i.elseBranch.Some? {
        ExecKeepsOutput(m, i.elseBranch.value, fuel);
      }
    }
  }

  lemma {:induction false} WhileKeepsOutput(m: Machine, w: WhileStmt, cond: TypedValue, fuel: nat)
    ensures m.output <= WhileLoop(m, w, cond, fuel).machine.output
    decreases fuel, w, 0
  {
    if IsTruthy(cond.value) && fuel > 0 {
      var b := Exec(m, w.body, fuel);
      ExecKeepsOutput(m, w.body, fuel);
      if b.outcome.Yield? {
        var c := Eval(b.machine, w.condition);
        if c.Yield? {
          WhileKeepsOutput(b.machine, w, c.value, fuel - 1);
        }
      }
    }
  }

  lemma {:induction false} BlockBodyKeepsOutput(m: Machine, stmts: seq<Stmt>, fuel: nat)
    ensures m.output <= BlockBody(m, stmts, fuel).machine.output
    decreases fuel, stmts, 1
  {
    if stmts != [] {
      ExecKeepsOutput(m, stmts[0], fuel);
      var h := Exec(m, stmts[0], fuel);
      if !stmts[0].Return? && h.outcome.Yield? {
        BlockBodyKeepsOutput(h.machine, stmts[1..], fuel);
      }
    }
  }

  lemma {:induction false} ExecuteBlockKeepsOutput(m: Machine, stmts: seq<Stmt>, id: nat, fuel: nat)
    ensures m.output <= ExecuteBlock(m, stmts, id, fuel).machine.output
    decreases fuel, stmts, 2
  {
    BlockBodyKeepsOutput(m.(envId := id), stmts, fuel);
  }

  /** The same holds for a whole program. */
  lemma {:induction false} InterpretKeepsOutput(m: Machine, stmts: seq<Stmt>, fuel: nat)
    ensures m.output <= Interpret(m, stmts, fuel).machine.output
    decreases stmts
  {
    if stmts != [] {
      ExecKeepsOutput(m, stmts[0], fuel);
      var h := Exec(m, stmts[0], fuel);
      if h.outcome.Yield? {
        InterpretKeepsOutput(h.machine, stmts[1..], fuel);
      }
    }
  }

  /** A block that completes restores the current entry it started from. */
  lemma BlockRestoresEnvironmentId(m: Machine, b: BlockStmt, fuel: nat)
    requires Exec(m, Block(b), fuel).outcome.Yield?
    ensures Exec(m, Block(b), fuel).machine.envId == m.envId
    ensures Exec(m, Block(b), fuel).outcome.value == UNIT
  {
  }

  /** `let variable: i32 = false;` is rejected, naming both types. */
  lemma LetWithMismatchedInitializerFails(m: Machine, v: VarStmt)
    requires v.typeAnnotation.tokenType == Types.Type(Types.I32)
    requires v.initializer == Some(Literal(LiteralExpr(TypedValue(Value.Boolean(false), Types.Bool))))
    ensures Exec(m, Var(v), 0) == Run(Fail(VarTypeMismatch(Types.I32, Types.Bool)), m)
  {
    MismatchedInitializer(m, v);
    assert Exec(m, Var(v), 0) == ExecVar(m, v);
  }

  /** The `let` step itself on `let variable: i32 = false;`. */
  lemma MismatchedInitializer(m: Machine, v: VarStmt)
    requires v.typeAnnotation.tokenType == Types.Type(Types.I32)
    requires v.initializer == Some(Literal(LiteralExpr(TypedValue(Value.Boolean(false), Types.Bool))))
    ensures ExecVar(m, v) == Run(Fail(VarTypeMismatch(Types.I32, Types.Bool)), m)
  {
    assert Eval(m, v.initializer.value) == Yield(TypedValue(Value.Boolean(false), Types.Bool));
    assert Types.ToTypeAnnotation(v.typeAnnotation.tokenType) == Ok(Types.I32);
    assert !Types.TypeEq(Types.I32, Types.Bool);
  }

  /** A `let` whose initializer matches its annotation makes the name read back as the initializer's value. */
  lemma LetThenRead(m: Machine, v: VarStmt)
    requires m.envId < |m.entries|
    requires Types.ToTypeAnnotation(v.typeAnnotation.tokenType).Ok?
    requires v.initializer.Some? && Eval(m, v.initializer.value).Yield?
    requires Types.TypeEq(Types.ToTypeAnnotation(v.typeAnnotation.tokenType).value, Eval(m, v.initializer.value).value.valueType)
    ensures Exec(m, Var(v), 0).outcome == Yield(UNIT)
    ensures Lookup(Exec(m, Var(v), 0).machine, v.name.lexeme) == Eval(m, v.initializer.value)
  {
    ReadAfterDefine(m, v.name.lexeme, Eval(m, v.initializer.value).value);
  }

  /** A literal `true`. */
  function TrueLiteral(): Expr
  {
    Literal(LiteralExpr(TypedValue(Value.Boolean(true), Types.Bool)))
  }

  /** A loop whose body breaks at once ends normally after one run of the body. */
  lemma BreakEndsLoop(m: Machine, w: WhileStmt, fuel: nat)
    requires fuel > 0 && w.condition == TrueLiteral() && w.body == Stmt.Break
    ensures Exec(m, While(w), fuel) == Run(Yield(UNIT), m)
  {
  }

  /**
   * `while (true) { break; }`: the `break` leaves `execute_block` before
   * it restores the current entry, so after the loop the loop body's
   * entry is still current and still in the environment.
   */
  lemma BreakFromBlockKeepsBodyEntry(m: Machine, fuel: nat)
    requires fuel > 0
    ensures var w := WhileStmt(Block(BlockStmt([Stmt.Break])), TrueLiteral());
      Exec(m, While(w), fuel) ==
        Run(Yield(UNIT), m.(envId := |m.entries|,
                            entries := m.entries + [Env.EnvironmentEntry(map[], Some(m.envId))]))
  {
    var body := Stmt.Block(BlockStmt([Stmt.Break]));
    var entered := m.(entries := m.entries + [Env.EnvironmentEntry(map[], Some(m.envId))]);
    var inside := entered.(envId := |m.entries|);
    assert BlockBody(inside, [Stmt.Break], fuel) == Run(Fail(ControlFlow(Flow.Break)), inside);
    assert Exec(m, body, fuel) == Run(Fail(ControlFlow(Flow.Break)), inside);
    assert Eval(m, TrueLiteral()) == Yield(TypedValue(Value.Boolean(true), Types.Bool));
  }

  /** A loop whose condition is not truthy does nothing. */
  lemma FalsyConditionSkipsLoop(m: Machine, w: WhileStmt, fuel: nat)
    requires Eval(m, w.condition).Yield? && !IsTruthy(Eval(m, w.condition).value.value)
    ensures Exec(m, While(w), fuel) == Run(Yield(UNIT), m)
  {
  }

  // ---------------------------------------------------------------- the `if` statement as written

  /**
   * The `if` arm as lib/interpreter.rs writes it: the then-branch runs when
   * the condition is truthy, and then the else-branch runs whenever there
   * is one, whatever the condition was.
   */
  function ExecIfAsWritten(m: Machine, i: IfStmt, fuel: nat): (r: Run)
    ensures var c := Eval(m, i.condition);
      c.Yield? && i.elseBranch.Some? && IsTruthy(c.value.value) && Exec(m, i.thenBranch, fuel).outcome.Yield? ==>
        r == Unitize(Exec(Exec(m, i.thenBranch, fuel).machine, i.elseBranch.value, fuel))
  {
    var c := Eval(m, i.condition);
    if !c.Yield? then Run(c, m)
    else
      var t := if IsTruthy(c.value.value) then Exec(m, i.thenBranch, fuel) else Run(Yield(UNIT), m);
      if !t.outcome.Yield? then t
      else if i.elseBranch.None? then Run(Yield(UNIT), t.machine)
      else Unitize(Exec(t.machine, i.elseBranch.value, fuel))
  }

  /** `print` of a string literal. */
  function PrintString(s: string): Stmt
  {
    Print(PrintStmt(Literal(LiteralExpr(TypedValue(Value.String(s), Types.String)))))
  }

  /** As written, `if (true) print "then"; else print "else";` prints both lines. */
  lemma IfAsWrittenRunsBothBranches(m: Machine, fuel: nat)
    ensures var i := IfStmt(TrueLiteral(), Some(PrintString("else")), PrintString("then"));
      ExecIfAsWritten(m, i, fuel).machine.output == m.output + ["then", "else"]
  {
    assert Eval(m, TrueLiteral()) == Yield(TypedValue(Value.Boolean(true), Types.Bool));
    PrintStringAppends(m, "then", fuel);
    var t := Exec(m, PrintString("then"), fuel);
    PrintStringAppends(t.machine, "else", fuel);
    assert m.output + ["then"] + ["else"] == m.output + ["then", "else"];
  }

  /** `print` of a string literal completes and appends exactly that string to the output. */
  lemma PrintStringAppends(m: Machine, s: string, fuel: nat)
    ensures Exec(m, PrintString(s), fuel).outcome.Yield?
    ensures Exec(m, PrintString(s), fuel).machine.output == m.output + [s]
  {
    assert Eval(m, Literal(LiteralExpr(TypedValue(Value.String(s), Types.String)))) == Yield(TypedValue(Value.String(s), Types.String));
  }

  /** With the intended `if`, the same statement prints only the then-branch. */
  lemma IfRunsOneBranch(m: Machine, fuel: nat)
    ensures var i := IfStmt(TrueLiteral(), Some(PrintString("else")), PrintString("then"));
      Exec(m, If(i), fuel).machine.output == m.output + ["then"]
  {
    assert Eval(m, TrueLiteral()) == Yield(TypedValue(Value.Boolean(true), Types.Bool));
    assert Exec(m, PrintString("then"), fuel).machine.output == m.output + ["then"];
  }

  /**
   * The intended `if` runs exactly one branch: the then-branch when the
   * condition is truthy, the else-branch (or nothing) otherwise.
   */
  lemma IfChoosesBranch(m: Machine, i: IfStmt, fuel: nat)
    requires Eval(m, i.condition).Yield?
    ensures IsTruthy(Eval(m, i.condition).value.value) ==> Exec(m, If(i), fuel) == Unitize(Exec(m, i.thenBranch, fuel))
    ensures !IsTruthy(Eval(m, i.condition).value.value) && i.elseBranch.Some? ==>
      Exec(m, If(i), fuel) == Unitize(Exec(m, i.elseBranch.value, fuel))
    ensures !IsTruthy(Eval(m, i.condition).value.value) && i.elseBranch.None? ==> Exec(m, If(i), fuel) == Run(Yield(UNIT), m)
  {
  }

  // ---------------------------------------------------------------- the interpreter object

  /** `Interpreter`: the current entry id and the environment it updates, and the printed lines. */
  class Interpreter {
    var envId: nat
    var entries: seq<Env.EnvironmentEntry>
    var slots: seq<ArenaEntry<TypedValue>>
    var output: seq<string>

    function Snapshot(): Machine
      reads this
    {
      Machine(envId, entries, slots, output)
    }

    /** `Interpreter::new`. */
    constructor ()
      ensures Snapshot() == NewMachine()
    {
      envId := 0;
      entries := [Env.FRESH_ENTRY];
      slots := [];
      output := [];
    }

    /** `execute_block`: swaps in the block's entry, runs the statements, and swaps the previous entry back. */
    method ExecuteBlockM(stmts: seq<Stmt>, id: nat, fuel: nat) returns (o: Outcome<TypedValue>)
      modifies this
      ensures Run(o, Snapshot()) == ExecuteBlock(old(Snapshot()), stmts, id, fuel)
      decreases fuel, stmts, 2
    {
      var previous := envId;
      envId := id;
      ghost var start := Snapshot();
      var value := UNIT;
      var returned := false;
      var i := 0;
      while i < |stmts| && !returned
        invariant 0 <= i <= |stmts|
        invariant !returned ==> value == UNIT
        invariant BlockBody(start, stmts, fuel) ==
          (if returned then Run(Yield(value), Snapshot()) else BlockBody(Snapshot(), stmts[i..], fuel))
      {
        assert stmts[i..][0] == stmts[i] && stmts[i..][1..] == stmts[i + 1..];
        var r := VisitStmt(stmts[i], fuel);
        if !r.Yield? {
          return r;
        }
        if stmts[i].Return? {
          value := r.value;
          returned := true;
        }
        i := i + 1;
      }
      if !returned {
        assert stmts[i..] == [];
      }
      if envId >= |entries| {
        return Panic;
      }
      entries := RemoveAt(entries, envId);
      envId := previous;
      return Yield(value);
    }

    /** The `while` arm: evaluates the condition, then runs the body while it is truthy. */
    method WhileM(w: WhileStmt, fuel: nat) returns (o: Outcome<TypedValue>)
      modifies this
      ensures Run(o, Snapshot()) == Exec(old(Snapshot()), While(w), fuel)
      decreases fuel, w, 1
    {
      var c := Eval(Snapshot(), w.condition);
      if !c.Yield? {
        return c;
      }
      var cond := c.value;
      var k: nat := fuel;
      while IsTruthy(cond.value)
        invariant k <= fuel
        invariant Exec(old(Snapshot()), While(w), fuel) == WhileLoop(Snapshot(), w, cond, k)
        decreases k
      {
        if k == 0 {
          return Unmodelled;
        }
        var b := VisitStmt(w.body, k);
        if b.Fail? && b.error.ControlFlow? {
          return Yield(UNIT);
        }
        if !b.Yield? {
          return b;
        }
        c := Eval(Snapshot(), w.condition);
        if !c.Yield? {
          return c;
        }
        cond := c.value;
        k := k - 1;
      }
      return Yield(UNIT);
    }

    /** The statement visitor. */
    method VisitStmt(s: Stmt, fuel: nat) returns (o: Outcome<TypedValue>)
      modifies this
      ensures Run(o, Snapshot()) == Exec(old(Snapshot()), s, fuel)
      decreases fuel, s, 0
    {
      match s
      case Enum(_) => o := Panic;
      case Break => o := Fail(ControlFlow(Flow.Break));
      case Expression(x) =>
        var v := Eval(Snapshot(), x.expression);
        o := if v.Yield? then Yield(UNIT) else v;
      case Print(p) =>
        var v := Eval(Snapshot(), p.expression);
        if !v.Yield? {
          return v;
        }
        output := output + [Display(v.value.value)];
        o := Yield(UNIT);
      case Return(ret) =>
        o := if !EqualsUnitLiteral(ret.value) then Eval(Snapshot(), ret.value) else Yield(UNIT);
      case Block(b) =>
        var id := |entries|;
        entries := entries + [Env.EnvironmentEntry(map[], Some(envId))];
        o := ExecuteBlockM(b.statements, id, fuel);
        if o.Yield? {
          o := Yield(UNIT);
        }
      case If(i) => o := IfM(i, fuel);
      case While(w) => o := WhileM(w, fuel);
      case Var(v) => o := VarM(v);
      case ImplTrait(_) => o := Unmodelled;
      case Trait(_) => o := Unmodelled;
      case TraitFunction(_) => o := Unmodelled;
      case Impl(_) => o := Unmodelled;
      case Struct(_) => o := Unmodelled;
      case Function(_) => o := Unmodelled;
    }

    /** An `if` statement: the branch the condition picks, its value dropped. */
    method IfM(i: IfStmt, fuel: nat) returns (o: Outcome<TypedValue>)
      modifies this
      ensures Run(o, Snapshot()) == ExecIf(old(Snapshot()), i, fuel)
      decreases fuel, i, 0
    {
      var c := Eval(Snapshot(), i.condition);
      if !c.Yield? {
        return c;
      }
      if IsTruthy(c.value.value) {
        o := VisitStmt(i.thenBranch, fuel);
      } else if i.elseBranch.Some? {
        o := VisitStmt(i.elseBranch.value, fuel);
      } else {
        o := Yield(UNIT);
      }
      if o.Yield? {
        o := Yield(UNIT);
      }
    }

    /** A `let` declaration. */
    method VarM(v: VarStmt) returns (o: Outcome<TypedValue>)
      modifies this
      ensures Run(o, Snapshot()) == ExecVar(old(Snapshot()), v)
    {
      var init := if v.initializer.Some? then Eval(Snapshot(), v.initializer.value) else Yield(UNIT);
      if !init.Yield? {
        return init;
      }
      var declared := Types.ToTypeAnnotation(v.typeAnnotation.tokenType);
      if declared.Err? {
        return Fail(declared.error);
      }
      if !Types.TypeEq(declared.value, init.value.valueType) {
        return Fail(VarTypeMismatch(declared.value, init.value.valueType));
      }
      if envId >= |entries| {
        return Panic;
      }
      entries := Env.Bind(entries, envId, v.name.lexeme, |slots|);
      slots := slots + [Occupied(init.value)];
      o := Yield(UNIT);
    }

    /** `interpret`: executes the statements in order and stops at the first error. */
    method InterpretM(stmts: seq<Stmt>, fuel: nat) returns (o: Outcome<TypedValue>)
      modifies this
      ensures Run(o, Snapshot()) == Interpret(old(Snapshot()), stmts, fuel)
    {
      var i := 0;
      while i < |stmts|
        invariant 0 <= i <= |stmts|
        invariant Interpret(old(Snapshot()), stmts, fuel) == Interpret(Snapshot(), stmts[i..], fuel)
      {
        assert stmts[i..][0] == stmts[i] && stmts[i..][1..] == stmts[i + 1..];
        var r := VisitStmt(stmts[i], fuel);
        if !r.Yield? {
          return r;
        }
        i := i + 1;
      }
      return Yield(UNIT);
    }
  }
}
