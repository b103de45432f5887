/**
 * `TypeChecker::check_type` (lib/type_checker.rs): compares two
 * annotations with the hand-written annotation equality and reports a
 * mismatch as a runtime type-assignment error.
 */
module TypeChecker {
  import opened Wrappers
  import opened Errors
  import opened Types

  /** The reason text of a mismatch. */
  function MismatchReason(lhs: TypeAnnotation, rhs: TypeAnnotation): string
  {
    "expected type " + DisplayType(lhs) + ", found " + DisplayType(rhs)
  }

  /** `TypeChecker::check_type`: succeeds exactly when the annotations are equal under `TypeEq`. */
  function CheckType(lhs: TypeAnnotation, rhs: TypeAnnotation): (r: Result<(), LangError>)
    ensures r.Ok? <==> TypeEq(lhs, rhs)
    ensures r.Err? ==> r.error.RuntimeError? && r.error.subtype.InvalidTypeAssignmentError?
    ensures r.Err? ==> r.error.subtype.reason == MismatchReason(lhs, rhs)
  {
    if !TypeEq(lhs, rhs) then
      Err(NewRuntimeError(InvalidTypeAssignmentError(MismatchReason(lhs, rhs))))
    else Ok(())
  }

  /** `Fn`, `Trait` and `SelfIndex` fail the type check against anything, themselves included. */
  lemma OpaqueAnnotationsNeverPass(t: TypeAnnotation, u: TypeAnnotation)
    requires t.Fn? || t.Trait? || t.SelfIndex?
    ensures CheckType(t, u).Err? && CheckType(u, t).Err?
    ensures CheckType(t, t).Err?
  {
    NeverEqual(t, u);
  }

  /** A user annotation and `Unit` pass in either order. */
  lemma UserAndUnitPass(name: string)
    ensures CheckType(User(name), Unit).Ok? && CheckType(Unit, User(name)).Ok?
  {
  }

  /** The verdict does not depend on the order of the operands (the message does). */
  lemma CheckTypeVerdictSymmetric(lhs: TypeAnnotation, rhs: TypeAnnotation)
    ensures CheckType(lhs, rhs).Ok? <==> CheckType(rhs, lhs).Ok?
  {
    TypeEqSymmetric(lhs, rhs);
  }

  /** An annotation passes against itself exactly when it holds no `Fn`, `Trait` or `SelfIndex`. */
  lemma CheckTypeAgainstItself(t: TypeAnnotation)
    ensures CheckType(t, t).Ok? <==> SelfComparable(t)
  {
    TypeEqReflexiveExactly(t);
  }

  /** The type check is stricter than assignment's own rule: `Unit` values need not match, but here they must. */
  lemma StricterThanAssignment()
    ensures CheckType(I32, Unit).Err?
    ensures CheckType(Array(I64), Array(I64)).Ok?
    ensures CheckType(Array(Fn), Array(Fn)).Err?
  {
  }
}
