/** The Laravel validation rules the controllers use, as predicates on request
    fields, and how a validated field sets a nullable column. */
module Rules {
  import opened Wrappers
  import opened Records
  import opened Text

  /** `required|string|max:n`: sent, not blank, at most `n` characters. */
  predicate RequiredString(f: Field<string>, n: nat)
  {
    f.Given? && !IsBlank(f.value) && |f.value| <= n
  }

  /** `sometimes|required|string|max:n`: checked only when the field is sent. */
  predicate SometimesRequiredString(f: Field<string>, n: nat)
  {
    f.Absent? || RequiredString(f, n)
  }

  /** `nullable|string|max:n`. */
  predicate NullableString(f: Field<string>, n: nat)
  {
    !f.Given? || |f.value| <= n
  }

  /** The values the `boolean` rule accepts: true, false, 0, 1, "0" and "1". */
  predicate AcceptsBoolean(v: Scalar)
  {
    v.SBool? || (v.SInt? && (v.i == 0 || v.i == 1)) || (v.SStr? && (v.s == "0" || v.s == "1"))
  }

  /** `boolean` without `nullable`: a field sent as null fails. */
  predicate BooleanRule(f: Field<Scalar>)
  {
    f.Absent? || (f.Given? && AcceptsBoolean(f.value))
  }

  /** What a boolean column holds once an accepted value is written to it. */
  function AsBool(v: Scalar): bool
  {
    match v
    case SBool(b) => b
    case SInt(i) => i == 1
    case SStr(s) => s == "1"
  }

  /** `required|exists:categories,id`. */
  predicate ExistingCategory(f: Field<int>, categories: map<nat, Category>)
  {
    f.Given? && f.value >= 0 && f.value as nat in categories
  }

  /** `nullable|image|max:2048`. */
  predicate NullableImage(f: Field<UploadedFile>)
  {
    !f.Given? || (IsImage(f.value) && WithinImageLimit(f.value))
  }

  /** The column value after `update($validated)`: an absent field leaves it,
      a null field clears it, a given field sets it. */
  function Assign<T>(f: Field<T>, current: Option<T>): (r: Option<T>)
    ensures f.Absent? ==> r == current
    ensures f.Null? ==> r.None?
    ensures f.Given? ==> r == Some(f.value)
  {
    match f
    case Absent => current
    case Null => None
    case Given(v) => Some(v)
  }
}
