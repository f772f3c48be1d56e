/**
 * The part of the struct validator (go-playground validator, version 8) that the domain
 * types rely on, written out as predicates instead of reflection over struct tags.
 *
 * A field carries the rules of its `validate:"..."` tag in order. The validator tries them
 * in that order and records the first one that fails (one error per field); a struct's
 * errors are collected into one set keyed by the field's path, so their order is not
 * significant.
 */
module Validator {
  import opened Wrappers

  /** The rule vocabulary of the tags: `required` and `min=N`. (`dive` is structural and is
      written out where it is used.) */
  datatype Rule = Required | Min(n: int)

  /** What a rule sees of a field: a string, an int, or a slice, which is nil or has a length. */
  datatype FieldValue = StringValue(s: string) | IntValue(i: int) | SliceValue(len: Option<nat>)

  /** One step of a field's path: a struct field by name, or an element of a slice by index. */
  datatype Segment = Field(name: string) | Index(i: nat)

  /** Where a rule failed, outermost step first: `Within(Field("Plan"), Within(Field("InstanceGroups"),
      Within(Index(0), At(Field("Name")))))` is the validator's "Plan.InstanceGroups[0].Name". */
  datatype Path = At(seg: Segment) | Within(seg: Segment, rest: Path)

  /** One failed rule: where it failed and which rule it was. */
  datatype FieldError = FieldError(path: Path, rule: Rule)

  /** The view of a Go slice, nil or a sequence, that the rules need. */
  function SliceOf<T>(s: Option<seq<T>>): FieldValue
  {
    match s
    case None => SliceValue(None)
    case Some(xs) => SliceValue(Some(|xs|))
  }

  /** The length `min=N` measures: runes of a string, elements of a slice, 0 for a nil slice. */
  function Length(v: FieldValue): nat
    requires !v.IntValue?
  {
    match v
    case StringValue(s) => |s|
    case SliceValue(l) => if l.Some? then l.value else 0
  }

  /** Whether a field holds the zero value of its type: the empty string, 0, or a nil slice.
      (An empty slice that is not nil is not the zero value.) */
  predicate IsZero(v: FieldValue) {
    match v
    case StringValue(s) => s == ""
    case IntValue(i) => i == 0
    case SliceValue(l) => l.None?
  }

  /** Whether one rule accepts a field: `required` rejects the zero value, `min=N` is a lower
      bound on an int and on the length of a string or a slice. */
  predicate Passes(rule: Rule, v: FieldValue) {
    match rule
    case Required => !IsZero(v)
    case Min(n) =>
      match v
      case IntValue(i) => i >= n
      case _ => Length(v) >= n
  }

  /** The first rule of a tag that rejects the field, if any. */
  function FirstFailed(rules: seq<Rule>, v: FieldValue): (r: Option<Rule>)
    ensures r.None? <==> forall k :: 0 <= k < |rules| ==> Passes(rules[k], v)
    ensures r.Some? ==> r.value in rules && !Passes(r.value, v)
  {
    if |rules| == 0 then None
    else if !Passes(rules[0], v) then Some(rules[0])
    else FirstFailed(rules[1..], v)
  }

  /** The errors of one field named `name` with value `v` and tag `rules`: none when every
      rule passes, otherwise the first failing rule at that field. */
  function FieldCheck(name: string, v: FieldValue, rules: seq<Rule>): (errs: set<FieldError>)
    ensures errs == {} <==> forall k :: 0 <= k < |rules| ==> Passes(rules[k], v)
    ensures forall e :: e in errs ==> e.path == At(Field(name)) && e.rule in rules && !Passes(e.rule, v)
    ensures forall rule :: FieldError(At(Field(name)), rule) in errs <==> FirstFailed(rules, v) == Some(rule)
  {
    match FirstFailed(rules, v)
    case None => {}
    case Some(rule) => {FieldError(At(Field(name)), rule)}
  }

  /** The errors of a nested struct or element, seen from the enclosing struct: every path
      gains `seg` in front. */
  function Nest(seg: Segment, errs: set<FieldError>): (r: set<FieldError>)
    ensures forall e :: e in errs ==> FieldError(Within(seg, e.path), e.rule) in r
    ensures forall e :: e in r ==> e.path.Within? && e.path.seg == seg && FieldError(e.path.rest, e.rule) in errs
    ensures r == {} <==> errs == {}
  {
    set e | e in errs :: FieldError(Within(seg, e.path), e.rule)
  }

  /** The rule `FirstFailed` reports is the earliest failing one: a tag stops at its first
      failure, so a nil slice under `required,min=1` fails `required` and not `min`. */
  lemma {:induction false} FirstFailedIsEarliest(rules: seq<Rule>, v: FieldValue, k: nat)
    requires k < |rules| && !Passes(rules[k], v)
    requires forall j :: 0 <= j < k ==> Passes(rules[j], v)
    ensures FirstFailed(rules, v) == Some(rules[k])
  {
    if k > 0 {
      assert Passes(rules[0], v);
      FirstFailedIsEarliest(rules[1..], v, k - 1);
    }
  }

  /** `validate:"required"` on its own: one error exactly when the field holds its zero value. */
  lemma RequiredTag(name: string, v: FieldValue)
    ensures FieldCheck(name, v, [Required]) ==
      if IsZero(v) then {FieldError(At(Field(name)), Required)} else {}
  {
  }

  /** `validate:"min=N"` on its own. */
  lemma MinTag(name: string, v: FieldValue, n: int)
    ensures FieldCheck(name, v, [Min(n)]) ==
      if Passes(Min(n), v) then {} else {FieldError(At(Field(name)), Min(n))}
  {
  }

  /** `validate:"required,min=N"`: the zero value fails `required` (and `min` is not tried);
      otherwise `min` decides. */
  lemma RequiredMinTag(name: string, v: FieldValue, n: int)
    ensures FieldCheck(name, v, [Required, Min(n)]) ==
      if IsZero(v) then {FieldError(At(Field(name)), Required)}
      else if Passes(Min(n), v) then {}
      else {FieldError(At(Field(name)), Min(n))}
  {
    var rules := [Required, Min(n)];
    assert rules[1..] == [Min(n)];
    if IsZero(v) {
      assert FirstFailed(rules, v) == Some(Required);
    } else {
      assert FirstFailed(rules, v) == FirstFailed([Min(n)], v);
    }
  }
}
