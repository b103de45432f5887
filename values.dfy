/**
 * Runtime values (lib/value.rs): the `Value` enum, typed values, and the
 * operations on them: default values, arithmetic, equality, ordering,
 * the assignment type check, array indices and `Display`.
 *
 * Floating-point numbers are kept opaque: a float is represented by the
 * text its `Display` prints, and every operation whose result depends on
 * float arithmetic or float ordering is `Unmodelled`.
 */
module Values {
  import opened Wrappers
  import opened Errors
  import opened Types

  const I32_MIN: int := -0x8000_0000
  const I32_MAX: int := 0x7fff_ffff
  const I64_MIN: int := -0x8000_0000_0000_0000
  const I64_MAX: int := 0x7fff_ffff_ffff_ffff
  const USIZE_MODULUS: int := 0x1_0000_0000_0000_0000

  type i32 = x: int | I32_MIN <= x <= I32_MAX
  type i64 = x: int | I64_MIN <= x <= I64_MAX

  /** A float, known only by its `Display` text (`"1.5"`, `"-0"`, `"NaN"`, `"inf"`). */
  datatype Float = Float(text: string)

  /**
   * `Value`. Structs, callables, traits and trait functions are behind
   * trait objects in the source; here each carries only the text that its
   * name or `Debug` rendering produces. `Enum` values are left out: the
   * source's equality, clone and display on them are `unimplemented!`.
   */
  datatype Value =
    | Struct(structName: string)
    | Callable(callableName: string)
    | String(str: string)
    | Int32(i32v: i32)
    | Int64(i64v: i64)
    | Float32(f32v: Float)
    | Float64(f64v: Float)
    | Trait(traitText: string)
    | TraitFunction(traitFnText: string)
    | Ident(ident: string)
    | Boolean(b: bool)
    | Array(items: seq<TypedValue>)
    | SelfIndex(selfName: string, envIndex: nat)
    | Unit

  /** `TypedValue`: a value with the annotation the interpreter attached to it. */
  datatype TypedValue = TypedValue(value: Value, valueType: TypeAnnotation)

  /**
   * The result of an evaluation step: a value, a language error, a panic
   * of the Rust program (arithmetic overflow, division by zero, an index
   * out of bounds), or a result the model does not determine (floats).
   */
  datatype Outcome<T> = Yield(value: T) | Fail(error: LangError) | Panic | Unmodelled
  {
    predicate IsFailure() { !Yield? }

    function PropagateFailure<U>(): Outcome<U>
      requires IsFailure()
    {
      match this
      case Fail(e) => Fail(e)
      case Panic => Panic
      case Unmodelled => Unmodelled
    }

    function Extract(): T
      requires Yield?
    {
      value
    }
  }

  /** The value/annotation pairs that agree; `Unit` is the default for everything without a default of its own. */
  predicate Inhabits(v: Value, t: TypeAnnotation)
  {
    match t
    case I32 => v.Int32?
    case I64 => v.Int64?
    case F32 => v.Float32?
    case F64 => v.Float64?
    case Bool => v.Boolean?
    case String => v.String?
    case Array(e) => v.Array? && forall i :: 0 <= i < |v.items| ==> v.items[i].valueType == e
    case _ => v.Unit?
  }

  /** `Value::default_value`. */
  function DefaultValue(t: TypeAnnotation): (v: Value)
    ensures Inhabits(v, t)
    ensures v.Int32? ==> v.i32v == 0
    ensures v.Int64? ==> v.i64v == 0
    ensures v.Boolean? ==> !v.b
    ensures v.String? ==> v.str == ""
    ensures v.Array? ==> v.items == []
    ensures v.Float32? ==> v.f32v == Float.Float("0")
    ensures v.Float64? ==> v.f64v == Float.Float("0")
  {
    match t
    case I32 => Int32(0)
    case I64 => Int64(0)
    case F32 => Float32(Float.Float("0"))
    case F64 => Float64(Float.Float("0"))
    case Bool => Boolean(false)
    case String => Value.String("")
    case Array(_) => Value.Array([])
    case _ => Value.Unit
  }

  /** `Value::type_to_str`. */
  function TypeToStr(v: Value): string
  {
    match v
    case Struct(_) => "struct"
    case SelfIndex(_, _) => "self"
    case Callable(_) => "callable"
    case String(_) => "string"
    case Int32(_) => "i32"
    case Int64(_) => "i64"
    case Float32(_) => "f32"
    case Float64(_) => "f64"
    case TraitFunction(_) => "trait fn"
    case Trait(_) => "trait"
    case Ident(_) => "Ident"
    case Boolean(_) => "bool"
    case Array(_) => "array"
    case Unit => "()"
  }

  /** Each kind of value has its own name, so the name determines the constructor. */
  lemma TypeToStrInjective(a: Value, b: Value)
    ensures TypeToStr(a) == TypeToStr(b) <==> ConstructorIndex(a) == ConstructorIndex(b)
  {
  }

  function ConstructorIndex(v: Value): nat
  {
    match v
    case Struct(_) => 0
    case Callable(_) => 1
    case String(_) => 2
    case Int32(_) => 3
    case Int64(_) => 4
    case Float32(_) => 5
    case Float64(_) => 6
    case Trait(_) => 7
    case TraitFunction(_) => 8
    case Ident(_) => 9
    case Boolean(_) => 10
    case Array(_) => 11
    case SelfIndex(_, _) => 12
    case Unit => 13
  }

  // ---------------------------------------------------------------- arithmetic

  /** An `i64` result, or a panic when Rust's overflow check fires. */
  function CheckedI64(x: int): (r: Outcome<Value>)
    ensures r.Yield? <==> I64_MIN <= x <= I64_MAX
    ensures r.Yield? ==> r.value == Int64(x)
    ensures !r.Yield? ==> r.Panic?
  {
    if I64_MIN <= x <= I64_MAX then Yield(Int64(x)) else Panic
  }

  /** Rust's integer division, which rounds toward zero. */
  function TruncDiv(a: int, b: int): (q: int)
    requires b != 0
    ensures a >= 0 && b > 0 ==> q == a / b
    ensures q == 0 || (q < 0 <==> (a < 0) != (b < 0))
    ensures Abs(q) == Abs(a) / Abs(b)
  {
    QuotientOfNats(Abs(a), Abs(b));
    var m := Abs(a) / Abs(b);
    if (a < 0) == (b < 0) then m else -m
  }

  lemma QuotientOfNats(x: int, y: int)
    requires x >= 0 && y > 0
    ensures x / y >= 0
  {
  }

  /** The quotient's magnitude is the largest whole multiple of the divisor's below the dividend's. */
  lemma TruncDivBounds(a: int, b: int)
    requires b != 0
    ensures Abs(TruncDiv(a, b)) * Abs(b) <= Abs(a) < Abs(TruncDiv(a, b)) * Abs(b) + Abs(b)
  {
    var x, y := Abs(a), Abs(b);
    var m := x / y;
    assert x == m * y + x % y;
  }

  function Abs(x: int): nat
  {
    if x < 0 then -x else x
  }

  /** `Add for Value`. */
  function Add(l: Value, r: Value): (o: Outcome<Value>)
    ensures !o.Fail?
  {
    match l
    case Int64(a) =>
      (match r
       case Int64(b) => CheckedI64(a + b)
       case Float64(_) => Unmodelled
       case _ => Yield(l))
    case Float64(_) => if r.Int64? || r.Float64? then Unmodelled else Yield(l)
    case String(a) => if r.String? then Yield(Value.String(a + r.str)) else Yield(l)
    case _ => Yield(l)
  }

  /** `Sub for Value`. */
  function Sub(l: Value, r: Value): (o: Outcome<Value>)
    ensures !o.Fail?
  {
    match l
    case Int64(a) =>
      (match r
       case Int64(b) => CheckedI64(a - b)
       case Float64(_) => Unmodelled
       case _ => Yield(l))
    case Float64(_) => if r.Int64? || r.Float64? then Unmodelled else Yield(l)
    case _ => Yield(l)
  }

  /** `Mul for Value`. */
  function Mul(l: Value, r: Value): (o: Outcome<Value>)
    ensures !o.Fail?
  {
    match l
    case Int64(a) =>
      (match r
       case Int64(b) => CheckedI64(a * b)
       case Float64(_) => Unmodelled
       case _ => Yield(l))
    case Float64(_) => if r.Int64? || r.Float64? then Unmodelled else Yield(l)
    case _ => Yield(l)
  }

  /** `Div for Value`: dividing by zero, or `i64::MIN / -1`, panics. */
  function Div(l: Value, r: Value): (o: Outcome<Value>)
    ensures !o.Fail?
  {
    match l
    case Int64(a) =>
      (match r
       case Int64(b) => if b == 0 then Panic else CheckedI64(TruncDiv(a, b))
       case Float64(_) => Unmodelled
       case _ => Yield(l))
    case Float64(_) => if r.Int64? || r.Float64? then Unmodelled else Yield(l)
    case _ => Yield(l)
  }

  /** Integer arithmetic on two `Int64`s is exact while it stays in range. */
  lemma IntegerArithmetic(a: i64, b: i64)
    ensures I64_MIN <= a + b <= I64_MAX ==> Add(Int64(a), Int64(b)) == Yield(Int64(a + b))
    ensures I64_MIN <= a - b <= I64_MAX ==> Sub(Int64(a), Int64(b)) == Yield(Int64(a - b))
    ensures I64_MIN <= a * b <= I64_MAX ==> Mul(Int64(a), Int64(b)) == Yield(Int64(a * b))
    ensures !(I64_MIN <= a + b <= I64_MAX) ==> Add(Int64(a), Int64(b)) == Panic
    ensures b == 0 ==> Div(Int64(a), Int64(b)) == Panic
    ensures b != 0 && a >= 0 && b > 0 ==> Div(Int64(a), Int64(b)) == Yield(Int64(a / b))
  {
  }

  /** Subtraction undoes addition, as long as the sum did not overflow. */
  lemma SubUndoesAdd(a: i64, b: i64)
    requires I64_MIN <= a + b <= I64_MAX
    ensures Add(Int64(a), Int64(b)).Yield?
    ensures Sub(Add(Int64(a), Int64(b)).value, Int64(b)) == Yield(Int64(a))
  {
  }

  /** Truncating division undoes multiplication by a nonzero factor. */
  lemma {:induction false} DivUndoesMul(a: i64, b: i64)
    requires b != 0 && I64_MIN <= a * b <= I64_MAX
    ensures Mul(Int64(a), Int64(b)).Yield?
    ensures Div(Mul(Int64(a), Int64(b)).value, Int64(b)) == Yield(Int64(a))
  {
    MulAbs(a, b);
    ExactQuotient(Abs(a), Abs(b));
    assert Abs(TruncDiv(a * b, b)) == Abs(a);
  }

  /** A multiple of `y` strictly between `-y` and `y` is zero. */
  lemma SmallMultipleIsZero(k: int, y: int)
    requires y > 0 && 0 <= k * y < y
    ensures k == 0
  {
    if k >= 1 {
      MulAtLeast(k, y);
    } else if k <= -1 {
      MulAtLeast(-k, y);
    }
  }

  lemma MulAtLeast(k: int, y: int)
    requires k >= 1 && y > 0
    ensures k * y >= y
  {
  }

  /** The magnitude and sign of a product. */
  lemma MulAbs(a: int, b: int)
    ensures Abs(a * b) == Abs(a) * Abs(b)
    ensures a * b < 0 <==> (a < 0 && b > 0) || (a > 0 && b < 0)
  {
    if a < 0 && b < 0 { assert a * b == (-a) * (-b); }
    else if a < 0 { assert -(a * b) == (-a) * b; }
    else if b < 0 { assert -(a * b) == a * (-b); }
  }
  /** Dividing a multiple of `y` by `y` is exact. */
  lemma ExactQuotient(x: nat, y: nat)
    requires y > 0
    ensures (x * y) / y == x
  {
    var q, r := (x * y) / y, (x * y) % y;
    assert x * y == q * y + r && 0 <= r < y;
    assert (x - q) * y == r;
    SmallMultipleIsZero(x - q, y);
  }

  /** A left operand that is not an `Int64`, `Float64` or (for `+`) `String` comes back unchanged. */
  lemma OtherLeftOperandUnchanged(l: Value, r: Value)
    requires !l.Int64? && !l.Float64?
    ensures Sub(l, r) == Yield(l) && Mul(l, r) == Yield(l) && Div(l, r) == Yield(l)
    ensures !l.String? ==> Add(l, r) == Yield(l)
  {
  }

  /** With a non-numeric right operand, an `Int64` left operand is returned unchanged. */
  lemma NonNumericRightOperand(a: i64, r: Value)
    requires !r.Int64? && !r.Float64?
    ensures Add(Int64(a), r) == Yield(Int64(a)) && Sub(Int64(a), r) == Yield(Int64(a))
    ensures Mul(Int64(a), r) == Yield(Int64(a)) && Div(Int64(a), r) == Yield(Int64(a))
  {
  }

  /** `String + String` concatenates; a string plus anything else is the string. */
  lemma StringAddition(s: string, r: Value)
    ensures r.String? ==> Add(Value.String(s), r) == Yield(Value.String(s + r.str))
    ensures !r.String? ==> Add(Value.String(s), r) == Yield(Value.String(s))
  {
  }

  // ---------------------------------------------------------------- equality

  /** Float equality: equal renderings other than NaN, or two zeros of either sign. */
  predicate FloatEq(a: Float, b: Float)
  {
    (a.text == b.text && a.text != "NaN") || (a.text in {"0", "-0"} && b.text in {"0", "-0"})
  }

  /**
   * `PartialEq for Value`. Arrays compare as `Vec<TypedValue>`, with the
   * derived equality on `TypedValue`: values by this predicate,
   * annotations by `TypeEq`.
   */
  predicate ValueEq(a: Value, b: Value)
  {
    match a
    case Struct(_) => false
    case SelfIndex(_, _) => false
    case Callable(_) => false
    case String(l) => b.String? && l == b.str
    case Int32(l) => b.Int32? && l == b.i32v
    case Int64(l) => b.Int64? && l == b.i64v
    case Float32(l) => b.Float32? && FloatEq(l, b.f32v)
    case Float64(l) => b.Float64? && FloatEq(l, b.f64v)
    case TraitFunction(_) => false
    case Trait(_) => false
    case Ident(l) => b.Ident? && l == b.ident
    case Boolean(l) => b.Boolean? && l == b.b
    case Array(l) =>
      b.Array? && |l| == |b.items| &&
      forall i :: 0 <= i < |l| ==> TypedValueEq(l[i], b.items[i])
    case Unit => b.Unit?
  }

  /** The derived `PartialEq for TypedValue`. */
  predicate TypedValueEq(x: TypedValue, y: TypedValue)
  {
    ValueEq(x.value, y.value) && TypeEq(x.valueType, y.valueType)
  }

  /** Values of different kinds are never equal. */
  lemma DifferentKindsUnequal(a: Value, b: Value)
    requires ConstructorIndex(a) != ConstructorIndex(b)
    ensures !ValueEq(a, b)
  {
  }

  /** Structs, `self`, callables, traits and trait functions are unequal even to themselves. */
  lemma OpaqueValuesUnequal(a: Value, b: Value)
    requires a.Struct? || a.SelfIndex? || a.Callable? || a.Trait? || a.TraitFunction?
    ensures !ValueEq(a, b) && !ValueEq(b, a)
  {
  }

  /** `Unit == Unit`, and two arrays are equal exactly when they are elementwise equal. */
  lemma UnitAndArrayEquality(xs: seq<TypedValue>, ys: seq<TypedValue>)
    ensures ValueEq(Value.Unit, Value.Unit)
    ensures ValueEq(Value.Array(xs), Value.Array(ys)) <==>
      |xs| == |ys| && forall i :: 0 <= i < |xs| ==> TypedValueEq(xs[i], ys[i])
  {
  }


  lemma {:induction false} ValueEqSymmetric(a: Value, b: Value)
    ensures ValueEq(a, b) <==> ValueEq(b, a)
    decreases a
  {
    match a
    case Array(l) =>
      if b.Array? && |l| == |b.items| {
        forall i | 0 <= i < |l|
          ensures TypedValueEq(l[i], b.items[i]) <==> TypedValueEq(b.items[i], l[i])
        {
          ValueEqSymmetric(l[i].value, b.items[i].value);
          TypeEqSymmetric(l[i].valueType, b.items[i].valueType);
        }
      }
    case _ =>
  }

  // ---------------------------------------------------------------- ordering

  datatype Ordering = Less | Equal | Greater

  /** Lexicographic order on strings (Rust's `str::cmp`, by code point). */
  function CmpStrings(a: string, b: string): (o: Ordering)
    ensures o == Ordering.Equal <==> a == b
  {
    if a == [] && b == [] then Ordering.Equal
    else if a == [] then Ordering.Less
    else if b == [] then Ordering.Greater
    else if a[0] < b[0] then Ordering.Less
    else if a[0] > b[0] then Ordering.Greater
    else (assert a == [a[0]] + a[1..] && b == [b[0]] + b[1..]; CmpStrings(a[1..], b[1..]))
  }

  function CmpInts(a: int, b: int): Ordering
  {
    if a < b then Ordering.Less else if a == b then Ordering.Equal else Ordering.Greater
  }

  function CmpBools(a: bool, b: bool): Ordering
  {
    if a == b then Ordering.Equal else if !a then Ordering.Less else Ordering.Greater
  }

  /**
   * `Ord for Value` (and `partial_cmp`, which wraps it in `Some`). A value
   * compared with a value of another kind, or any struct, callable, trait
   * or `self` value, is `Ordering.Less`. `None` stands for a comparison of two
   * floats, which the model does not determine.
   */
  function Cmp(a: Value, b: Value): Option<Ordering>
  {
    match a
    case String(l) => Some(if b.String? then CmpStrings(l, b.str) else Ordering.Less)
    case Int32(l) => Some(if b.Int32? then CmpInts(l, b.i32v) else Ordering.Less)
    case Int64(l) => Some(if b.Int64? then CmpInts(l, b.i64v) else Ordering.Less)
    case Float32(_) => if b.Float32? then None else Some(Ordering.Less)
    case Float64(_) => if b.Float64? then None else Some(Ordering.Less)
    case Ident(l) => Some(if b.Ident? then CmpStrings(l, b.ident) else Ordering.Less)
    case Boolean(l) => Some(if b.Boolean? then CmpBools(l, b.b) else Ordering.Less)
    case Array(l) =>
      Some(if !b.Array? then Ordering.Less
           else if |l| > |b.items| then Ordering.Greater
           else if |b.items| > |l| then Ordering.Less
           else Ordering.Equal)
    case Unit => Some(if b.Unit? then Ordering.Equal else Ordering.Less)
    case _ => Some(Ordering.Less)
  }

  /** Mismatched kinds compare `Ordering.Less` in both directions, so the order is not antisymmetric. */
  lemma MismatchedKindsLess(a: Value, b: Value)
    requires ConstructorIndex(a) != ConstructorIndex(b)
    ensures Cmp(a, b) == Some(Ordering.Less) && Cmp(b, a) == Some(Ordering.Less)
  {
  }

  /** Arrays are ordered by length alone. */
  lemma ArraysCompareByLength(xs: seq<TypedValue>, ys: seq<TypedValue>)
    ensures Cmp(Value.Array(xs), Value.Array(ys)) == Some(CmpInts(|xs|, |ys|))
  {
  }

  /** Integers, strings and booleans use their natural order. */
  lemma NaturalOrders(a: i64, b: i64, s: string, t: string, p: bool, q: bool)
    ensures Cmp(Int64(a), Int64(b)) == Some(CmpInts(a, b))
    ensures Cmp(Value.String(s), Value.String(t)) == Some(CmpStrings(s, t))
    ensures Cmp(Boolean(p), Boolean(q)) == Some(if p == q then Ordering.Equal else if q then Ordering.Less else Ordering.Greater)
  {
  }

  lemma {:induction false} CmpStringsAntisymmetric(a: string, b: string)
    ensures CmpStrings(a, b) == Ordering.Less <==> CmpStrings(b, a) == Ordering.Greater
    decreases |a|
  {
    if a != [] && b != [] && a[0] == b[0] {
      CmpStringsAntisymmetric(a[1..], b[1..]);
    }
  }

  // ---------------------------------------------------------------- typed values

  /** The reference rule for `check_type`: which value annotations may be stored under which target annotations. */
  predicate Assignable(target: TypeAnnotation, source: TypeAnnotation)
  {
    source.Unit? || target.Unit? || target.Trait? || target.SelfIndex? ||
    (target.Array? && source.Array? && TypeEq(target.element, source.element)) ||
    (!target.Array? && target == source)
  }

  /** `TypedValue::check_type`. */
  function CheckType(self: TypedValue, value: TypedValue): (r: Result<(), LangError>)
    ensures r.Err? ==> r.error == RuntimeError(InvalidTypeAssignmentError(
      "tried to assign value of type " + DisplayType(self.valueType) +
      " to value of type " + DisplayType(value.valueType)))
  {
    var t := value.valueType;
    var matches :=
      match self.valueType
      case User(l) => (t.User? && l == t.name) || t.Unit?
      case String => t.String? || t.Unit?
      case I32 => t.I32? || t.Unit?
      case I64 => t.I64? || t.Unit?
      case F32 => t.F32? || t.Unit?
      case F64 => t.F64? || t.Unit?
      case Bool => t.Bool? || t.Unit?
      case Array(l) => (t.Array? && TypeEq(l, t.element)) || t.Unit?
      case Fn => t.Fn? || t.Unit?
      case _ => true;
    if !matches then
      Err(NewRuntimeError(InvalidTypeAssignmentError(
        "tried to assign value of type " + DisplayType(self.valueType) +
        " to value of type " + DisplayType(value.valueType))))
    else Ok(())
  }

  /** `check_type` succeeds exactly when the annotations are assignable. */
  lemma CheckTypeAccepts(self: TypedValue, value: TypedValue)
    ensures CheckType(self, value).Ok? <==> Assignable(self.valueType, value.valueType)
  {
  }

  /**
   * `TypedValue::assign_checked`, on values: the first component is the
   * new contents of the assigned place, the second what the call returns.
   */
  function AssignChecked(self: TypedValue, other: TypedValue): (r: (TypedValue, Result<(), LangError>))
    ensures r.1 == CheckType(self, other)
    ensures r.1.Ok? ==> r.0 == other
    ensures r.1.Err? ==> r.0 == self
  {
    var c := CheckType(self, other);
    if c.Err? then (self, c) else (other, Ok(()))
  }

  /** An assignment that passes the type check can be repeated with no further effect. */
  lemma AssignCheckedIdempotent(self: TypedValue, other: TypedValue)
    requires AssignChecked(self, other).1.Ok?
    ensures AssignChecked(AssignChecked(self, other).0, other).0 == other
  {
    var t := other.valueType;
    CheckTypeAccepts(other, other);
    match t
    case Array(e) => TypeEqReflexiveExactly(e);
      if !TypeEq(e, e) {
        CheckTypeAccepts(self, other);
      }
    case _ =>
  }

  /** A Rust `i64 as usize` cast. */
  function AsUsize(i: i64): (n: nat)
    ensures n < USIZE_MODULUS
    ensures i >= 0 ==> n == i
    ensures i < 0 ==> n == i + USIZE_MODULUS
  {
    if i >= 0 then i else i + USIZE_MODULUS
  }

  /** `TypedValue::as_array_index`. */
  function AsArrayIndex(tv: TypedValue): (r: Outcome<nat>)
    ensures r.Yield? <==> tv.value.Int64? || tv.value.Boolean?
    ensures tv.value.Int64? ==> r == Yield(AsUsize(tv.value.i64v))
    ensures tv.value.Boolean? ==> r == Yield(if tv.value.b then 1 else 0)
    ensures tv.value.Float64? ==> r.Unmodelled?
    ensures r.Fail? <==> !(tv.value.Int64? || tv.value.Boolean? || tv.value.Float64?)
    ensures r.Fail? ==> r.error == RuntimeError(GenericError(
      "Tried to index an array with incorrect type '" + TypeToStr(tv.value) + "'"))
  {
    match tv.value
    case Int64(i) => Yield(AsUsize(i))
    case Float64(_) => Unmodelled
    case Boolean(b) => Yield(if b then 1 else 0)
    case _ => Fail(NewRuntimeError(GenericError(
      "Tried to index an array with incorrect type '" + TypeToStr(tv.value) + "'")))
  }

  /** `Value::as_array_index`: the same, except that the error shows the value itself. */
  function ValueAsArrayIndex(v: Value): (r: Outcome<nat>)
    ensures r.Yield? <==> v.Int64? || v.Boolean?
    ensures v.Int64? ==> r == Yield(AsUsize(v.i64v))
    ensures r.Fail? ==> r.error == RuntimeError(GenericError(ErrorMessage(IncorrectIndexType(Display(v)))))
  {
    match v
    case Int64(i) => Yield(AsUsize(i))
    case Float64(_) => Unmodelled
    case Boolean(b) => Yield(if b then 1 else 0)
    case _ => Fail(NewRuntimeError(GenericError(ErrorMessage(IncorrectIndexType(Display(v))))))
  }

  /** The two conversions accept the same values and agree on the index. */
  lemma ArrayIndexConversionsAgree(tv: TypedValue)
    ensures AsArrayIndex(tv).Yield? <==> ValueAsArrayIndex(tv.value).Yield?
    ensures AsArrayIndex(tv).Yield? ==> AsArrayIndex(tv).value == ValueAsArrayIndex(tv.value).value
  {
  }

  // ---------------------------------------------------------------- display

  function DigitChar(d: nat): (c: char)
    requires d < 10
    ensures '0' <= c <= '9'
  {
    "0123456789"[d]
  }

  /** The decimal digits of a natural number. */
  function NatToString(n: nat): (s: string)
    ensures |s| > 0
    ensures forall i :: 0 <= i < |s| ==> '0' <= s[i] <= '9'
    ensures n > 0 ==> s[0] != '0'
    decreases n
  {
    if n < 10 then [DigitChar(n)] else NatToString(n / 10) + [DigitChar(n % 10)]
  }

  /** Rust's `{}` for an integer. */
  function IntToString(i: int): (s: string)
    ensures |s| > 0
    ensures i < 0 <==> s[0] == '-'
  {
    if i < 0 then "-" + NatToString(-i) else NatToString(i)
  }

  /** Joins displayed items with single spaces. */
  function JoinWithSpaces(parts: seq<string>): string
  {
    if parts == [] then ""
    else if |parts| == 1 then parts[0]
    else JoinWithSpaces(parts[..|parts| - 1]) + " " + parts[|parts| - 1]
  }

  /** `Display for Value`. */
  function Display(v: Value): string
  {
    match v
    case Struct(n) => n
    case SelfIndex(n, i) => n + ", " + IntToString(i)
    case Callable(n) => n
    case String(s) => s
    case Int32(i) => IntToString(i)
    case Int64(i) => IntToString(i)
    case Float32(f) => f.text
    case Float64(f) => f.text
    case TraitFunction(t) => t
    case Trait(t) => t
    case Ident(id) => id
    case Boolean(b) => if b then "true" else "false"
    case Array(items) => JoinWithSpaces(seq(|items|, i requires 0 <= i < |items| => Display(items[i].value)))
    case Unit => "unit"
  }

  /** An array shows its elements joined by one space; `Unit` shows as "unit". */
  lemma DisplayArray(items: seq<TypedValue>, last: TypedValue)
    ensures Display(Value.Array([])) == ""
    ensures Display(Value.Array([last])) == Display(last.value)
    ensures items != [] ==>
      Display(Value.Array(items + [last])) == Display(Value.Array(items)) + " " + Display(last.value)
    ensures Display(Value.Unit) == "unit"
  {
    if items != [] {
      var all := items + [last];
      var parts := seq(|all|, i requires 0 <= i < |all| => Display(all[i].value));
      assert parts[..|parts| - 1] == seq(|items|, i requires 0 <= i < |items| => Display(items[i].value));
    }
  }

  // ---------------------------------------------------------------- structs

  /**
   * `StructValue`: an instance's fields and methods. The declaring
   * statement is kept only through its name.
   */
  class StructValue {
    const structName: string
    var fields: map<string, TypedValue>
    var methods: map<string, TypedValue>
    var instanceName: string

    /** `StructValue::new`: no methods yet. */
    constructor (structName: string, fields: map<string, TypedValue>, instanceName: string)
      ensures this.structName == structName && this.fields == fields
      ensures this.methods == map[] && this.instanceName == instanceName
    {
      this.structName := structName;
      this.fields := fields;
      this.methods := map[];
      this.instanceName := instanceName;
    }

    /** `field_exists`. */
    predicate FieldExists(name: string)
      reads this
    {
      name in fields
    }

    /**
     * `set_field`: a missing field is an `UndefinedVariable` error,
     * otherwise the field is assigned with `assign_checked`. (The source
     * formats the whole name token into the message; the model uses its
     * lexeme.)
     */
    method SetField(name: string, value: TypedValue) returns (r: Result<(), LangError>)
      modifies this
      ensures name !in old(fields) ==>
        r == Err(RuntimeError(UndefinedVariable("tried to set an undefined variable: '" + name + "'"))) &&
        fields == old(fields)
      ensures name in old(fields) ==>
        r == AssignChecked(old(fields)[name], value).1 &&
        fields == old(fields)[name := AssignChecked(old(fields)[name], value).0]
      ensures methods == old(methods) && instanceName == old(instanceName)
    {
      if name !in fields {
        return Err(NewRuntimeError(UndefinedVariable("tried to set an undefined variable: '" + name + "'")));
      }
      var (updated, result) := AssignChecked(fields[name], value);
      fields := fields[name := updated];
      r := result;
    }

    /** `define_method`: always succeeds and replaces any method of that name. */
    method DefineMethod(name: string, value: TypedValue) returns (r: Result<(), LangError>)
      modifies this
      ensures r.Ok? && methods == old(methods)[name := value]
      ensures fields == old(fields) && instanceName == old(instanceName)
    {
      methods := methods[name := value];
      r := Ok(());
    }
  }
}
