/** The two checker lookup functions the plugin adds to the host's chain.
    Each is given the origin type, the generic arguments and the extras of an
    `Annotated[...]` type and either declines (None, fall through to the next
    lookup function) or returns a checker bound to one constraint. */
module Lookup {
  import opened Model
  import Dispatch

  /** `i` is the position of the first extra that is an instance of `k`. */
  ghost predicate IsFirstInstance(extras: seq<Obj>, k: MetaClass, i: int) {
    0 <= i < |extras| && IsInstance(extras[i], k) &&
    forall j :: 0 <= j < i ==> !IsInstance(extras[j], k)
  }

  /** There is at most one first instance. */
  lemma FirstInstanceUnique(extras: seq<Obj>, k: MetaClass, i: int, j: int)
    requires IsFirstInstance(extras, k, i) && IsFirstInstance(extras, k, j)
    ensures i == j
  {
  }

  /** The generator `(extra for extra in extras if isinstance(extra, k))`
      under `next(..., None)`: the position of its first element. */
  function FirstInstance(extras: seq<Obj>, k: MetaClass): (r: Option<nat>)
    ensures r.Some? ==> IsFirstInstance(extras, k, r.value)
    ensures r.None? ==> forall j :: 0 <= j < |extras| ==> !IsInstance(extras[j], k)
  {
    if |extras| == 0 then None
    else if IsInstance(extras[0], k) then Some(0)
    else match FirstInstance(extras[1..], k)
      case None => None
      case Some(i) => Some(i + 1)
  }

  /** The constraint a lookup function picks: the origin type itself when it
      is an instance of `k`; otherwise the first instance among the extras,
      unless that object is falsy (the walrus test `not (x := next(...))`
      then declines); otherwise nothing. */
  function Select(k: MetaClass, originType: Obj, extras: seq<Obj>): (r: Option<Constraint>)
    ensures IsInstance(originType, k) ==> r == Some(originType.c)
    ensures !IsInstance(originType, k) ==>
      (r.Some? <==> exists i :: IsFirstInstance(extras, k, i) && Truthy(extras[i].c))
    ensures !IsInstance(originType, k) && r.Some? ==>
      exists i :: IsFirstInstance(extras, k, i) && r.value == extras[i].c
    ensures r.Some? ==> IsInstanceOf(r.value, k)
  {
    if IsInstance(originType, k) then Some(originType.c)
    else
      match FirstInstance(extras, k)
      case None => None
      case Some(i) =>
        assert forall j :: IsFirstInstance(extras, k, j) ==> j == i by {
          forall j | IsFirstInstance(extras, k, j) ensures j == i {
            FirstInstanceUnique(extras, k, i, j);
          }
        }
        if Truthy(extras[i].c) then Some(extras[i].c) else None
  }

  /** A lookup function's answer: `partial(check_predicate, predicate=p)` or
      `partial(check_annotated_type, annotated_type=c)`. */
  datatype BoundChecker =
    | PredicateChecker(pred: Constraint)
    | AnnotatedChecker(annotatedType: Constraint)

  /** `predicate_checker_lookup`. */
  function PredicateCheckerLookup(originType: Obj, args: seq<Obj>, extras: seq<Obj>): (r: Option<BoundChecker>)
    ensures r.None? <==> Select(PredicateClass, originType, extras).None?
    ensures r.Some? ==> r.value == PredicateChecker(Select(PredicateClass, originType, extras).value)
    ensures r.Some? ==> IsPredicate(r.value.pred)
  {
    match Select(PredicateClass, originType, extras)
    case None => None
    case Some(p) => Some(PredicateChecker(p))
  }

  /** `basemetadata_checker_lookup`. */
  function BaseMetadataCheckerLookup(originType: Obj, args: seq<Obj>, extras: seq<Obj>): (r: Option<BoundChecker>)
    ensures r.None? <==> Select(BaseMetadataClass, originType, extras).None?
    ensures r.Some? ==> r.value == AnnotatedChecker(Select(BaseMetadataClass, originType, extras).value)
    ensures r.Some? ==> IsBaseMetadata(r.value.annotatedType)
  {
    match Select(BaseMetadataClass, originType, extras)
    case None => None
    case Some(c) => Some(AnnotatedChecker(c))
  }

  /** Calling the bound checker on a value: the host's error when the base
      check fails; otherwise a pass exactly when the bound constraint accepts
      the value (through the table for the annotated checker, by a direct
      call for the predicate checker), and a failure names the bound
      constraint. */
  function Invoke(b: BoundChecker, value: Value, originType: Obj, args: seq<Obj>,
                  host: (Value, Obj) -> Dispatch.HostVerdict): (r: Dispatch.Verdict)
    ensures host(value, originType).Rejected? ==> r == Dispatch.HostFailure(host(value, originType).message)
    ensures host(value, originType).Accepted? && b.AnnotatedChecker? ==>
      r == Dispatch.Translate(value, b.annotatedType, Dispatch.Validate(b.annotatedType, value))
    ensures host(value, originType).Accepted? && b.PredicateChecker? && IsPredicate(b.pred) ==>
      r == Dispatch.Translate(value, b.pred, Unwrap(b.pred).func(value))
    ensures b.AnnotatedChecker? ==>
      (r.Pass? <==> host(value, originType).Accepted? && Accepts(Dispatch.Validate(b.annotatedType, value)))
    ensures b.PredicateChecker? && IsPredicate(b.pred) ==>
      (r.Pass? <==> host(value, originType).Accepted? && Accepts(Unwrap(b.pred).func(value)))
    ensures b.PredicateChecker? && !IsPredicate(b.pred) ==> !r.Pass?
    ensures r.Failed? ==>
      r.value == value && r.constraint == (if b.PredicateChecker? then b.pred else b.annotatedType)
  {
    match b
    case PredicateChecker(p) => Dispatch.CheckPredicate(value, originType, args, host, p)
    case AnnotatedChecker(c) => Dispatch.CheckAnnotatedType(value, originType, args, host, c)
  }

  /** End to end: once a lookup answers, the value passes exactly when the
      host's base check accepts it and the selected constraint accepts it. */
  lemma LookupThenCheck(originType: Obj, args: seq<Obj>, extras: seq<Obj>, value: Value,
                        host: (Value, Obj) -> Dispatch.HostVerdict)
    ensures BaseMetadataCheckerLookup(originType, args, extras).Some? ==>
      (Invoke(BaseMetadataCheckerLookup(originType, args, extras).value, value, originType, args, host).Pass?
       <==> host(value, originType).Accepted? &&
            Accepts(Dispatch.Validate(Select(BaseMetadataClass, originType, extras).value, value)))
    ensures PredicateCheckerLookup(originType, args, extras).Some? ==>
      (Invoke(PredicateCheckerLookup(originType, args, extras).value, value, originType, args, host).Pass?
       <==> host(value, originType).Accepted? &&
            Accepts(Unwrap(Select(PredicateClass, originType, extras).value).func(value)))
  {
  }

  /** The selection looks at the origin type first and then at the extras in
      order, never at `args`: the first instance among the extras wins over
      any later one, and the origin wins over all extras. */
  lemma {:induction false} SelectionOrder(k: MetaClass, originType: Obj, pre: seq<Obj>,
                                          c: Constraint, post: seq<Obj>)
    requires !IsInstance(originType, k)
    requires forall j :: 0 <= j < |pre| ==> !IsInstance(pre[j], k)
    requires IsInstanceOf(c, k) && Truthy(c)
    ensures Select(k, originType, pre + [Meta(c)] + post) == Some(c)
    ensures Select(k, Meta(c), pre + post) == Some(c)
  {
    var extras := pre + [Meta(c)] + post;
    assert extras[|pre|] == Meta(c);
    assert IsFirstInstance(extras, k, |pre|);
    var r := Select(k, originType, extras);
    assert r.Some?;
    var i :| IsFirstInstance(extras, k, i) && r.value == extras[i].c;
    FirstInstanceUnique(extras, k, i, |pre|);
  }

  /** With no instance of `k` anywhere the lookup falls through, and a falsy
      first instance makes it fall through too, even when a truthy instance
      follows it. */
  lemma FallThrough(k: MetaClass, originType: Obj, extras: seq<Obj>, c: Constraint, d: Constraint)
    requires !IsInstance(originType, k)
    requires forall j :: 0 <= j < |extras| ==> !IsInstance(extras[j], k)
    requires IsInstanceOf(c, k) && !Truthy(c)
    ensures Select(k, originType, extras) == None
    ensures Select(k, originType, [Meta(c), Meta(d)]) == None
  {
    assert IsFirstInstance([Meta(c), Meta(d)], k, 0);
  }

  /** The lookups never read `args`. */
  lemma LookupsIgnoreArgs(originType: Obj, a1: seq<Obj>, a2: seq<Obj>, extras: seq<Obj>)
    ensures PredicateCheckerLookup(originType, a1, extras) == PredicateCheckerLookup(originType, a2, extras)
    ensures BaseMetadataCheckerLookup(originType, a1, extras) == BaseMetadataCheckerLookup(originType, a2, extras)
  {
  }

  /** A Predicate is BaseMetadata, so where the predicate lookup answers
      from the origin type the base-metadata lookup picks the same object. */
  lemma PredicateOriginSeenByBoth(originType: Obj, args: seq<Obj>, extras: seq<Obj>)
    requires IsInstance(originType, PredicateClass)
    ensures PredicateCheckerLookup(originType, args, extras) == Some(PredicateChecker(originType.c))
    ensures BaseMetadataCheckerLookup(originType, args, extras) == Some(AnnotatedChecker(originType.c))
  {
    PredicateIsBaseMetadata(originType.c);
  }

  /** "integer greater than 4", `Annotated[int, Gt(4)]`, checked end to end
      with a host that accepts exactly the numbers: 5 passes, 4 fails with
      the constraint in the error, "hi" gets the host's error. */
  lemma GreaterThanFourScenario(host: (Value, Obj) -> Dispatch.HostVerdict)
    requires forall v :: host(v, Plain("int")) == if v.Num? then Dispatch.Accepted else Dispatch.Rejected("is not an instance of int")
    ensures BaseMetadataCheckerLookup(Plain("int"), [], [Meta(Gt(4))]) == Some(AnnotatedChecker(Gt(4)))
    ensures Invoke(AnnotatedChecker(Gt(4)), Num(5), Plain("int"), [], host) == Dispatch.Pass
    ensures Invoke(AnnotatedChecker(Gt(4)), Num(4), Plain("int"), [], host) == Dispatch.Failed(Num(4), Gt(4))
    ensures Invoke(AnnotatedChecker(Gt(4)), Sized(2), Plain("int"), [], host)
         == Dispatch.HostFailure("is not an instance of int")
  {
    assert IsFirstInstance([Meta(Gt(4))], BaseMetadataClass, 0);
    assert host(Num(5), Plain("int")) == Dispatch.Accepted;
    assert host(Num(4), Plain("int")) == Dispatch.Accepted;
    assert host(Sized(2), Plain("int")) == Dispatch.Rejected("is not an instance of int");
  }

  /** "string containing a glob character", `Annotated[str, Predicate(f)]`:
      the predicate lookup binds the predicate, and a value `f` rejects fails
      naming the predicate, one `f` raises on is wrapped. */
  lemma PredicateScenario(host: (Value, Obj) -> Dispatch.HostVerdict, f: Value -> Outcome,
                          good: Value, bad: Value, broken: Value, e: Exc)
    requires host(good, Plain("str")).Accepted? && host(bad, Plain("str")).Accepted?
    requires host(broken, Plain("str")).Accepted?
    requires f(good) == Returned(true) && f(bad) == Returned(false) && f(broken) == Threw(e)
    ensures PredicateCheckerLookup(Plain("str"), [], [Meta(Predicate(f))]) == Some(PredicateChecker(Predicate(f)))
    ensures Invoke(PredicateChecker(Predicate(f)), good, Plain("str"), [], host) == Dispatch.Pass
    ensures Invoke(PredicateChecker(Predicate(f)), bad, Plain("str"), [], host) == Dispatch.Failed(bad, Predicate(f))
    ensures Invoke(PredicateChecker(Predicate(f)), broken, Plain("str"), [], host) == Dispatch.Raised(broken, e)
  {
    assert IsFirstInstance([Meta(Predicate(f))], PredicateClass, 0);
  }

  /** A raw `slice` is neither a Predicate nor BaseMetadata, so neither
      lookup selects it, and the table's `slice` entry is never reached
      through the plugin's lookups. */
  lemma SliceNeverSelected(start: Option<int>, stop: Option<int>, originType: Obj,
                           args: seq<Obj>, extras: seq<Obj>)
    requires forall j :: 0 <= j < |extras| ==> extras[j] == Meta(Slice(start, stop)) || !extras[j].Meta?
    requires !originType.Meta?
    ensures PredicateCheckerLookup(originType, args, extras) == None
    ensures BaseMetadataCheckerLookup(originType, args, extras) == None
    ensures BaseMetadataCheckerLookup(Meta(Slice(start, stop)), args, []) == None
  {
  }

  /** `Annotated[int, Interval(gt=4)]`: grouped metadata is neither a
      Predicate nor BaseMetadata, so both lookups decline and no constraint
      is checked at all; and `Annotated[str, MinLen(3)]`: MinLen is
      BaseMetadata without a table entry, so every value the host accepts
      raises KeyError. */
  lemma GroupedAndUnlistedMetadata(host: (Value, Obj) -> Dispatch.HostVerdict, v: Value)
    requires host(v, Plain("str")).Accepted?
    ensures PredicateCheckerLookup(Plain("int"), [], [Plain("Interval(gt=4)")]) == None
    ensures BaseMetadataCheckerLookup(Plain("int"), [], [Plain("Interval(gt=4)")]) == None
    ensures BaseMetadataCheckerLookup(Plain("str"), [], [Meta(OtherMetadata("MinLen"))])
         == Some(AnnotatedChecker(OtherMetadata("MinLen")))
    ensures Invoke(AnnotatedChecker(OtherMetadata("MinLen")), v, Plain("str"), [], host)
         == Dispatch.Raised(v, KeyError(KNamed("MinLen")))
  {
    assert IsFirstInstance([Meta(OtherMetadata("MinLen"))], BaseMetadataClass, 0);
  }
}
