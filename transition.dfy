/** The transition detector: does a write to `users/{userId}/shareWith`
    turn the user from "not available" into "available"? */
module Transition {

  /** A raw value read from the realtime database. The store is untyped, so the
      watched field may hold any of these, or nothing at all. */
  datatype RawValue =
    | Undefined
    | Null
    | Bool(b: bool)
    | Num(n: int)
    | Str(s: string)
    | Composite   // an object or array stored under the key

  /** JavaScript truthiness, stated only to contrast it with the strict test below. */
  predicate Truthy(v: RawValue) {
    match v
    case Undefined => false
    case Null => false
    case Bool(b) => b
    case Num(n) => n != 0
    case Str(s) => s != ""
    case Composite => true
  }

  /** `v === true`: strict identity with the boolean literal, no coercion. */
  predicate IsStrictlyTrue(v: RawValue) {
    v == Bool(true)
  }

  /** `previousValue !== true && newValue === true`. */
  predicate IsQualifyingTransition(before: RawValue, after: RawValue) {
    !IsStrictlyTrue(before) && IsStrictlyTrue(after)
  }

  /** The detector enumerated case by case: the new value must be the boolean `true`,
      and the old one may be anything else, including other truthy values. */
  lemma QualifyingCases(before: RawValue, after: RawValue)
    ensures IsQualifyingTransition(before, after) <==>
      after == Bool(true) &&
      (before.Undefined? || before.Null? || before == Bool(false) ||
       before.Num? || before.Str? || before.Composite?)
  {
  }

  /** Concrete before/after pairs: from `false`, `null` or no value to `true` qualifies;
      staying `true`, going back to `false` or staying `false` does not. */
  lemma DetectorExamples()
    ensures IsQualifyingTransition(Bool(false), Bool(true))
    ensures IsQualifyingTransition(Null, Bool(true))
    ensures IsQualifyingTransition(Undefined, Bool(true))
    ensures !IsQualifyingTransition(Bool(true), Bool(true))
    ensures !IsQualifyingTransition(Bool(true), Bool(false))
    ensures !IsQualifyingTransition(Bool(false), Bool(false))
  {
  }

  /** A truthy new value that is not the boolean `true` never qualifies, and a truthy
      old value that is not `true` does not block: the test is strict, not truthiness. */
  lemma StrictNotTruthy(before: RawValue, after: RawValue)
    requires Truthy(after) && after != Bool(true)
    ensures !IsQualifyingTransition(before, after)
    ensures Truthy(before) && before != Bool(true) ==> IsQualifyingTransition(before, Bool(true))
  {
  }
}
