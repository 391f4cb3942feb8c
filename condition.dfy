/**
 * Query conditions: a predicate on one field of a record. Evaluation is
 * total: a missing field, a field of the wrong variant or a value that is not
 * an Object at all simply does not match.
 */
module Conditions {
  import opened Wrappers
  import opened Values
  import Text

  datatype Condition =
    | Equals(field: string, expected: Value)
    | GreaterThan(field: string, threshold: I64)
    | LessThan(field: string, threshold: I64)
    | Contains(field: string, substring: string)
    | Between(field: string, min: I64, max: I64)

  /** The record `v` holds an Integer under `f`. */
  predicate HasIntegerField(v: Value, f: string)
  {
    v.Object? && f in v.fields && v.fields[f].Integer?
  }

  /** The record `v` holds a String under `f`. */
  predicate HasStringField(v: Value, f: string)
  {
    v.Object? && f in v.fields && v.fields[f].String?
  }

  /**
   * `Condition::matches`. Each branch resolves the field with `get_field`
   * and narrows it with `as_integer` or `as_string`; any failure is `false`.
   */
  function Matches(c: Condition, v: Value): (r: bool)
    ensures !v.Object? ==> !r
    ensures c.Equals? ==> (r <==> v.Object? && c.field in v.fields && v.fields[c.field] == c.expected)
    ensures c.GreaterThan? ==> (r <==> HasIntegerField(v, c.field) && v.fields[c.field].num > c.threshold)
    ensures c.LessThan? ==> (r <==> HasIntegerField(v, c.field) && v.fields[c.field].num < c.threshold)
    ensures c.Contains? ==>
              (r <==> HasStringField(v, c.field) && exists i :: Text.OccursAt(v.fields[c.field].text, c.substring, i))
    ensures c.Between? ==>
              (r <==> HasIntegerField(v, c.field) && c.min <= v.fields[c.field].num <= c.max)
  {
    match c
    case Equals(f, expected) =>
      (match GetField(v, f)
       case Some(actual) => actual == expected
       case None => false)
    case GreaterThan(f, threshold) =>
      (match GetField(v, f)
       case Some(actual) => (match AsInteger(actual) case Some(n) => n > threshold case None => false)
       case None => false)
    case LessThan(f, threshold) =>
      (match GetField(v, f)
       case Some(actual) => (match AsInteger(actual) case Some(n) => n < threshold case None => false)
       case None => false)
    case Contains(f, substring) =>
      (match GetField(v, f)
       case Some(actual) => (match AsString(actual) case Some(s) => Text.Contains(s, substring) case None => false)
       case None => false)
    case Between(f, min, max) =>
      (match GetField(v, f)
       case Some(actual) => (match AsInteger(actual) case Some(n) => n >= min && n <= max case None => false)
       case None => false)
  }

  /** With the same field and threshold, GreaterThan and LessThan never both match. */
  lemma GreaterAndLessExclusive(f: string, t: I64, v: Value)
    ensures !(Matches(GreaterThan(f, t), v) && Matches(LessThan(f, t), v))
  {
  }

  /**
   * Between is inclusive at both ends: it fails just below the lower bound
   * and just above the upper one, and an empty range matches nothing.
   */
  lemma BetweenBoundaries(f: string, lo: I64, hi: I64, v: Value)
    ensures HasIntegerField(v, f) && (v.fields[f].num == lo - 1 || v.fields[f].num == hi + 1) ==> !Matches(Between(f, lo, hi), v)
    ensures HasIntegerField(v, f) && (v.fields[f].num == lo || v.fields[f].num == hi) && lo <= hi ==> Matches(Between(f, lo, hi), v)
    ensures lo > hi ==> !Matches(Between(f, lo, hi), v)
  {
  }

  /**
   * Away from the ends of the `i64` range, Between(f, lo, hi) is the
   * conjunction of GreaterThan(f, lo - 1) and LessThan(f, hi + 1).
   */
  lemma BetweenIsOpenRange(f: string, lo: I64, hi: I64, v: Value)
    requires I64_MIN < lo && hi < I64_MAX
    ensures Matches(Between(f, lo, hi), v) <==> Matches(GreaterThan(f, lo - 1), v) && Matches(LessThan(f, hi + 1), v)
  {
  }

  /**
   * Contains is a case-sensitive substring test on a String field, and the
   * empty pattern matches any String field; a field that is missing or holds
   * another variant never matches.
   */
  lemma ContainsOnText(f: string, sub: string, v: Value)
    ensures HasStringField(v, f) ==> (Matches(Contains(f, sub), v) <==> Text.Contains(v.fields[f].text, sub))
    ensures HasStringField(v, f) ==> Matches(Contains(f, ""), v)
    ensures !HasStringField(v, f) ==> !Matches(Contains(f, sub), v)
  {
    if HasStringField(v, f) {
      assert Text.OccursAt(v.fields[f].text, "", 0);
    }
  }
}
