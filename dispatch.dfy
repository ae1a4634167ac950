/** The dispatch table and the two checkers the lookup functions bind:
    `check_annotated_type` (through the table) and the second
    `check_predicate` (calling the predicate directly). Both run the host's
    base-type check first, then the constraint, and turn a falsy result or an
    exception into one TypeCheckError. */
module Dispatch {
  import opened Model
  import Checkers

  /** `VALIDATORS`: keyed on the exact class of the constraint; `slice` shares
      the `Len` checker. */
  const Validators: map<Kind, (Constraint, Value) -> Outcome> := map[
    KGt := Checkers.CheckGt,
    KLt := Checkers.CheckLt,
    KGe := Checkers.CheckGe,
    KLe := Checkers.CheckLe,
    KMultipleOf := Checkers.CheckMultipleOf,
    KPredicate := Checkers.CheckPredicate,
    KLen := Checkers.CheckLen,
    KTimezone := Checkers.CheckTimezone,
    KSlice := Checkers.CheckLen
  ]

  /** The table has exactly the nine keys, and `slice` is an alias of `Len`. */
  lemma ValidatorsTable()
    ensures Validators.Keys == {KGt, KLt, KGe, KLe, KMultipleOf, KPredicate, KLen, KTimezone, KSlice}
    ensures forall k :: k in Validators ==> !k.KNamed?
    ensures forall c, v :: Validators[KSlice](c, v) == Validators[KLen](c, v)
  {
  }

  /** `VALIDATORS[type(c)](c, v)` inside the `try`: a class missing from the
      table raises KeyError, which the caller catches like any other error. */
  function Validate(c: Constraint, v: Value): (r: Outcome)
    ensures c.OtherMetadata? || c.Derived? ==> r == Threw(KeyError(TypeOf(c)))
    ensures c.Gt? ==> r == Checkers.CheckGt(c, v)
    ensures c.Lt? ==> r == Checkers.CheckLt(c, v)
    ensures c.Ge? ==> r == Checkers.CheckGe(c, v)
    ensures c.Le? ==> r == Checkers.CheckLe(c, v)
    ensures c.MultipleOf? ==> r == Checkers.CheckMultipleOf(c, v)
    ensures c.Predicate? ==> r == c.func(v)
    ensures c.Len? || c.Slice? ==> r == Checkers.CheckLen(c, v)
    ensures c.Timezone? ==> r == Checkers.CheckTimezone(c, v)
  {
    var k := TypeOf(c);
    if k in Validators then Validators[k](c, v) else Threw(KeyError(k))
  }

  /** Because the table is keyed on the exact class, the class assertion a
      leaf checker starts with never fails under dispatch: apart from what a
      user predicate itself raises, the only AssertionError left is
      check_timezone's on a value that is not a datetime. */
  lemma DispatchNeverFailsClassAssertion(c: Constraint, v: Value)
    ensures Validate(c, v) == Threw(AssertionError) && !c.Predicate? ==> c.Timezone? && !v.Stamp?
  {
  }

  /** Exact-type dispatch rejects the subclass: an instance of a user
      subclass of a known constraint class always raises KeyError, even when
      its base class would accept the value. */
  lemma SubclassIsNotDispatched(name: string, base: Constraint, t: bool, v: Value)
    ensures Validate(Derived(name, base, t), v) == Threw(KeyError(KNamed(name)))
    ensures Validate(Gt(4), Num(5)) == Returned(true)
  {
  }

  /** What the host's `check_type` does with the value and the origin type:
      it passes, or it raises TypeCheckError with a message of its own. */
  datatype HostVerdict = Accepted | Rejected(message: string)

  /** The effect of calling a bound checker: it returns, or it raises one
      TypeCheckError, which is the host's own (`HostFailure`), a constraint
      violation (`Failed`, message "with value=<repr> failed <constraint>")
      or a wrapped exception (`Raised`, message "with value=<repr> raised an
      error: <exception repr>"); or the truth test of the checker's result,
      which runs outside the `try`, raises and its exception escapes as it
      is (`Escaped`). */
  datatype Verdict =
    | Pass
    | HostFailure(message: string)
    | Failed(value: Value, constraint: Constraint)
    | Raised(value: Value, error: Exc)
    | Escaped(error: Exc)

  /** The `try`/`except`/`else` shared by both checkers: only the call is
      inside the `try`, so an exception of the call is wrapped with the
      value, while one raised by `not check_ok` in the `else` is not. */
  function Translate(value: Value, c: Constraint, o: Outcome): (r: Verdict)
    ensures r.Pass? <==> Accepts(o)
    ensures r.Failed? <==> o == Returned(false)
    ensures r.Failed? ==> r.value == value && r.constraint == c
    ensures r.Raised? <==> o.Threw?
    ensures r.Raised? ==> r.value == value && r.error == o.error
    ensures r.Escaped? <==> o.Untestable?
    ensures r.Escaped? ==> r.error == o.error
    ensures !r.HostFailure?
  {
    match o
    case Threw(e) => Raised(value, e)
    case Untestable(e) => Escaped(e)
    case Returned(ok) => if ok then Pass else Failed(value, c)
  }

  /** `check_annotated_type`: the base check runs first and its failure
      propagates unchanged; only then is the constraint consulted. */
  function CheckAnnotatedType(value: Value, originType: Obj, args: seq<Obj>,
                              host: (Value, Obj) -> HostVerdict,
                              annotatedType: Constraint): (r: Verdict)
    ensures host(value, originType).Rejected? ==> r == HostFailure(host(value, originType).message)
    ensures host(value, originType).Accepted? ==>
      r == Translate(value, annotatedType, Validate(annotatedType, value))
    ensures r.Pass? <==> host(value, originType).Accepted? && Accepts(Validate(annotatedType, value))
  {
    match host(value, originType)
    case Rejected(msg) => HostFailure(msg)
    case Accepted => Translate(value, annotatedType, Validate(annotatedType, value))
  }

  /** The second `check_predicate`: `predicate.func(value)` is called
      directly, without the table; an object without a `func` attribute
      raises AttributeError inside the `try`. */
  function CheckPredicate(value: Value, originType: Obj, args: seq<Obj>,
                          host: (Value, Obj) -> HostVerdict,
                          pred: Constraint): (r: Verdict)
    ensures host(value, originType).Rejected? ==> r == HostFailure(host(value, originType).message)
    ensures host(value, originType).Accepted? && IsPredicate(pred) ==>
      r == Translate(value, pred, Unwrap(pred).func(value))
    ensures host(value, originType).Accepted? && !IsPredicate(pred) ==>
      r == Raised(value, AttributeError)
  {
    match host(value, originType)
    case Rejected(msg) => HostFailure(msg)
    case Accepted =>
      var o := if IsPredicate(pred) then Unwrap(pred).func(value) else Threw(AttributeError);
      Translate(value, pred, o)
  }

  /** The base check decides first: when it fails, the verdict is the
      host's error whatever the constraint is, so no checker's outcome can
      show through. */
  lemma BaseFailurePrecedes(value: Value, originType: Obj, args: seq<Obj>,
                            host: (Value, Obj) -> HostVerdict, c1: Constraint, c2: Constraint)
    requires host(value, originType).Rejected?
    ensures CheckAnnotatedType(value, originType, args, host, c1)
         == CheckPredicate(value, originType, args, host, c2)
         == HostFailure(host(value, originType).message)
  {
  }

  /** The two checkers agree on a plain Predicate, and part on a subclass
      of it: the table does not know the subclass, the direct call does. */
  lemma PredicateCheckersAgree(value: Value, originType: Obj, args: seq<Obj>,
                               host: (Value, Obj) -> HostVerdict, f: Value -> Outcome, name: string)
    requires host(value, originType).Accepted?
    ensures CheckAnnotatedType(value, originType, args, host, Predicate(f))
         == CheckPredicate(value, originType, args, host, Predicate(f))
    ensures CheckAnnotatedType(value, originType, args, host, Derived(name, Predicate(f), true))
         == Raised(value, KeyError(KNamed(name)))
    ensures CheckPredicate(value, originType, args, host, Derived(name, Predicate(f), true))
         == Translate(value, Derived(name, Predicate(f), true), f(value))
  {
  }

  /** The text of the TypeCheckError a verdict raises, for given `repr`s of
      values, constraints and exceptions; None when no TypeCheckError is
      raised. */
  function Message(r: Verdict, reprValue: Value -> string, reprConstraint: Constraint -> string,
                   reprError: Exc -> string): (m: Option<string>)
    ensures m.None? <==> r.Pass? || r.Escaped?
    ensures r.HostFailure? ==> m == Some(r.message)
    ensures (r.Failed? || r.Raised?) ==>
      var prefix := "with value=" + reprValue(r.value);
      m.Some? && |prefix| <= |m.value| && m.value[..|prefix|] == prefix &&
      m.value[|prefix|..] ==
        if r.Failed? then " failed " + reprConstraint(r.constraint)
        else " raised an error: " + reprError(r.error)
  {
    match r
    case Pass => None
    case Escaped(_) => None
    case HostFailure(msg) => Some(msg)
    case Failed(v, c) => Some("with value=" + reprValue(v) + " failed " + reprConstraint(c))
    case Raised(v, e) => Some("with value=" + reprValue(v) + " raised an error: " + reprError(e))
  }
}
