/** The values, constraint objects and outcomes the plugin works on.

    Python objects are modelled by the few shapes the checkers tell apart:
    numbers, sized containers (only their length matters), datetimes (only
    their tzinfo matters) and everything else. Constraint objects are the
    annotated_types metadata classes the dispatch table knows, plus
    `OtherMetadata` for a metadata class it does not know and `Derived` for
    an instance of a user subclass of one of them. */
module Model {

  datatype Option<+T> = None | Some(value: T)

  /** The tzinfo attached to an aware datetime: a `datetime.timezone` (an
      offset in minutes and an optional explicit name), or any other tzinfo
      object such as a named zone, which reports `abbrev` from `tzname()`. */
  datatype TzInfo =
    | FixedOffset(minutes: int, name: Option<string>)
    | Zone(key: string, abbrev: string)

  datatype Value =
    | Num(n: int)                    // int (and bool)
    | Sized(size: nat)               // str, list, set, dict, tuple, ...
    | Stamp(tzinfo: Option<TzInfo>)  // datetime; None is a naive datetime
    | Opaque(tag: string)            // any other object

  /** The exact class of a constraint object, as `type(constraint)` gives it.
      A class that is not one of the table's keys is named by `KNamed`. */
  datatype Kind =
    | KGt | KLt | KGe | KLe | KMultipleOf | KPredicate | KLen | KTimezone | KSlice
    | KNamed(name: string)

  /** The exceptions the checkers can raise. `UserException` is whatever a
      user predicate raises. */
  datatype Exc =
    | TypeError
    | AssertionError
    | ZeroDivisionError
    | KeyError(key: Kind)
    | AttributeError
    | UserException(name: string)

  /** What calling a checker (or a user predicate) does: it returns an object
      whose truthiness is `truthy`, it returns an object whose truth test
      (`__bool__`) itself raises `error`, or it raises `error`. */
  datatype Outcome =
    | Returned(truthy: bool)
    | Untestable(error: Exc)
    | Threw(error: Exc)

  predicate Accepts(o: Outcome) {
    o.Returned? && o.truthy
  }

  /** The `tz` field of `annotated_types.Timezone`: a zone name, a
      `datetime.timezone`, None, the ellipsis, or some other tzinfo object. */
  datatype TzSpec =
    | TzStr(zone: string)
    | TzFixed(minutes: int, name: Option<string>)
    | TzNone
    | TzEllipsis
    | TzObject(key: string)

  datatype Constraint =
    | Gt(gt: int)
    | Lt(lt: int)
    | Ge(ge: int)
    | Le(le: int)
    | MultipleOf(multipleOf: int)
    | Len(minInclusive: Option<int>, maxExclusive: Option<int>)
    | Slice(start: Option<int>, stop: Option<int>)   // a raw `slice` object
    | Timezone(tz: TzSpec)
    | Predicate(func: Value -> Outcome)
    | OtherMetadata(kind: string)                   // e.g. MinLen, Unit, LowerCase
    /** An instance of a user subclass `subclass` of the class of `base`,
        holding base's fields; `truthy` is false when the subclass makes its
        instances falsy (a `__bool__` returning False). */
    | Derived(subclass: string, base: Constraint, truthy: bool)

  function TypeOf(c: Constraint): Kind {
    match c
    case Gt(_) => KGt
    case Lt(_) => KLt
    case Ge(_) => KGe
    case Le(_) => KLe
    case MultipleOf(_) => KMultipleOf
    case Len(_, _) => KLen
    case Slice(_, _) => KSlice
    case Timezone(_) => KTimezone
    case Predicate(_) => KPredicate
    case OtherMetadata(k) => KNamed(k)
    case Derived(n, _, _) => KNamed(n)
  }

  /** The annotated_types class a constraint is an instance of, seen through
      any chain of user subclasses: what `isinstance` and attribute access
      see, as opposed to `type()`. */
  function Unwrap(c: Constraint): (r: Constraint)
    ensures !r.Derived?
    ensures !c.Derived? ==> r == c
  {
    match c
    case Derived(_, b, _) => Unwrap(b)
    case _ => c
  }

  /** `isinstance(c, BaseMetadata)`: every annotated_types constraint class
      derives from BaseMetadata, `slice` does not. */
  predicate IsBaseMetadata(c: Constraint) {
    !Unwrap(c).Slice?
  }

  /** `isinstance(c, Predicate)`. */
  predicate IsPredicate(c: Constraint) {
    Unwrap(c).Predicate?
  }

  /** `bool(c)`: the annotated_types classes define neither `__bool__` nor
      `__len__`, so only a user subclass can make an instance falsy. */
  predicate Truthy(c: Constraint) {
    match c
    case Derived(_, _, t) => t
    case _ => true
  }

  /** Predicate is a subclass of BaseMetadata. */
  lemma PredicateIsBaseMetadata(c: Constraint)
    requires IsPredicate(c)
    ensures IsBaseMetadata(c)
  {
  }

  /** An object standing as the origin type or as one of the extras of an
      `Annotated[...]` type: a constraint object, or anything else (a class
      such as `int`, a string, ...). */
  datatype Obj = Meta(c: Constraint) | Plain(name: string)

  /** The two classes the lookup functions test extras against. */
  datatype MetaClass = PredicateClass | BaseMetadataClass

  predicate IsInstanceOf(c: Constraint, k: MetaClass) {
    match k
    case PredicateClass => IsPredicate(c)
    case BaseMetadataClass => IsBaseMetadata(c)
  }

  predicate IsInstance(o: Obj, k: MetaClass) {
    o.Meta? && IsInstanceOf(o.c, k)
  }
}
