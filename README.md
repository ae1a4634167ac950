# typeguard annotated-types plugin, modelled in Dafny

The plugin lets the runtime type checker typeguard enforce the constraints of
the `annotated_types` library (`Gt`, `Lt`, `Ge`, `Le`, `MultipleOf`, `Len`,
`Timezone`, `Predicate`) written in `Annotated[...]` types. Its table also
has an entry for a raw `slice` read as a length range, but no lookup ever
selects a slice. The model has five modules:

- `model.dfy`, module `Model`: the values, the constraint objects, their exact
  class (`TypeOf`), what `isinstance` sees (`Unwrap`, `IsBaseMetadata`,
  `IsPredicate`) and their truthiness.
- `checkers.dfy`, module `Checkers`: the leaf checkers, each a total function
  from a constraint and a value to an `Outcome`, that is, a returned
  truthiness or a raised exception. Python's floor `%` is written out
  (`PyMod`).
- `dispatch.dfy`, module `Dispatch`: the `VALIDATORS` table keyed on the exact
  class, `check_annotated_type`, and the second `check_predicate`. Both run
  the host's base-type check first and turn a falsy result or an exception of the call
  into one TypeCheckError (`Verdict`).
- `lookup.dfy`, module `Lookup`: `predicate_checker_lookup` and
  `basemetadata_checker_lookup`. Both share the selection rule `Select`:
  first the origin type, then the first matching extra, otherwise decline.
  This module also binds a checker to the chosen constraint (`BoundChecker`,
  `Invoke`).
- `registry.dfy`, module `Registry`: the host's list of lookup functions as a
  class whose `Extend` appends in place, and the import-time registration.

Inputs the plugin does not compute are parameters:
- the host's `check_type` is `host: (Value, Obj) -> HostVerdict`;
- a user predicate is a function `Value -> Outcome`;
- the `repr` of values, constraints and exceptions are functions given to
  `Dispatch.Message`;
- answers of lookup functions registered by others are given by `foreign`.

Four behaviours of the code a reader might expect otherwise:
- An unknown constraint class is not a separate configuration error. The
  table lookup sits inside the `try`, so its KeyError becomes the same
  "raised an error" TypeCheckError as any checker exception.
- The code has no catalog of kinds, no subclass test and no unwrapping of
  grouped metadata. Selection is one `isinstance` test against
  `Predicate` or `BaseMetadata`, so grouped metadata such as `Interval` is
  not checked at all, and BaseMetadata without a table entry such as
  `MinLen` always raises KeyError.
- Registration only appends. It has no guard against a second registration.
- The table's `slice` entry is dead through the plugin. A raw `slice` is
  neither a `Predicate` nor `BaseMetadata`, so both lookups skip it, and
  `Annotated[str, 3:5]` gets only the host's base check.

## Model

| member | source | states |
|---|---|---|
| Checkers.CheckGt | src/typeguard_annotatedtypes_plugin/__init__.py:15-17 | accepts exactly the numbers strictly above the bound; a non-number raises TypeError; a non-Gt constraint fails the class assertion |
| Checkers.CheckLt | src/typeguard_annotatedtypes_plugin/__init__.py:20-22 | accepts exactly the numbers strictly below the bound; TypeError on non-numbers, AssertionError on a non-Lt constraint |
| Checkers.CheckGe | src/typeguard_annotatedtypes_plugin/__init__.py:25-27 | accepts exactly the numbers at or above the bound; TypeError on non-numbers, AssertionError on a non-Ge constraint |
| Checkers.CheckLe | src/typeguard_annotatedtypes_plugin/__init__.py:30-32 | accepts exactly the numbers at or below the bound; TypeError on non-numbers, AssertionError on a non-Le constraint |
| Checkers.StrictIsShiftedNonStrict | src/typeguard_annotatedtypes_plugin/__init__.py:15-32 | on integers `Gt(b)` decides every value as `Ge(b+1)` does, and `Lt(b)` as `Le(b-1)` does |
| Checkers.BoundsComplement | src/typeguard_annotatedtypes_plugin/__init__.py:15-32 | `Gt(b)` accepts exactly the numbers `Le(b)` rejects, and `Lt(b)` those `Ge(b)` rejects; the bound itself passes `Ge`/`Le` and fails `Gt`/`Lt` |
| Checkers.PyDivMod | src/typeguard_annotatedtypes_plugin/__init__.py:37 | the modelled floor division and remainder rebuild the dividend, and the remainder lies between zero and the divisor, taking its sign |
| Checkers.PyModZeroIffDivides | src/typeguard_annotatedtypes_plugin/__init__.py:37 | Python's remainder is zero iff Dafny's Euclidean remainder is zero iff the divisor divides the value |
| Checkers.CheckMultipleOf | src/typeguard_annotatedtypes_plugin/__init__.py:35-37 | accepts exactly the numbers that are an integer multiple of a non-zero divisor; returns (true or false) iff the constraint is a MultipleOf, the value a number and the divisor non-zero; otherwise raises AssertionError for another constraint, else TypeError for a non-number, else ZeroDivisionError |
| Checkers.MultipleOfExamples | tests/test_all.py:747-784 | `MultipleOf(3)` accepts 0, 3 and 9 and returns false on 1, 2 and 4; -6 is accepted and negative divisors behave alike; `MultipleOf(0)` raises ZeroDivisionError |
| Checkers.AsLen | src/typeguard_annotatedtypes_plugin/__init__.py:41-42 | a slice becomes a `Len` whose minimum is always present |
| Checkers.CheckLen | src/typeguard_annotatedtypes_plugin/__init__.py:40-50 | a `Len` without a minimum raises TypeError whatever the value; otherwise accepts iff the minimum is at most the length and the length is below the maximum, when there is one; a `Len` with a minimum returns iff the value has a length, and a slice returns iff the value has a length, both using `start or 0` for a slice; only TypeError or AssertionError is raised, AssertionError exactly for other constraints |
| Checkers.SliceIsLen | src/typeguard_annotatedtypes_plugin/__init__.py:41-42 | a slice decides every value as `Len(start or 0, stop)` does |
| Checkers.LenMaxExclusive | src/typeguard_annotatedtypes_plugin/__init__.py:46-50 | a length equal to the maximum is rejected; a maximum not above the minimum rejects every length |
| Checkers.LenExamples | src/typeguard_annotatedtypes_plugin/__init__.py:44-49 | `Len(3, 5)` accepts lengths 3 and 4 and rejects 2 and 5; `Len(None, 5)` raises on the empty string |
| Checkers.CheckPredicate | src/typeguard_annotatedtypes_plugin/__init__.py:53-55 | the outcome is exactly what the predicate's function returns or raises; a non-Predicate fails the class assertion |
| Checkers.DefaultTzName | src/typeguard_annotatedtypes_plugin/__init__.py:62 | the name an unnamed fixed offset reports is "UTC" exactly for offset zero, else "UTC+..." or "UTC-..." by the sign |
| Checkers.DigitsDenote | src/typeguard_annotatedtypes_plugin/__init__.py:62 | the decimal numeral written for a number denotes that number |
| Checkers.TwoDigitsDenote | src/typeguard_annotatedtypes_plugin/__init__.py:62 | the two-digit field denotes the number and has exactly two digits below 100 |
| Checkers.DefaultTzNameFields | src/typeguard_annotatedtypes_plugin/__init__.py:62 | inside a day the default name is nine characters, "UTC", the sign, two decimal digits for the offset's hours, ":" and two decimal digits for its remaining minutes |
| Checkers.CheckTimezone | src/typeguard_annotatedtypes_plugin/__init__.py:58-68 | returns iff the value is a datetime (else AssertionError); a string spec accepts iff aware with that tzname, a fixed-offset spec iff aware with an equal offset, None iff naive, any other spec iff aware |
| Checkers.NaiveOnlyUnderNone | src/typeguard_annotatedtypes_plugin/__init__.py:58-68 | a naive datetime passes iff the spec is None, and a passing value is naive iff the spec is None |
| Checkers.FixedOffsetIgnoresNames | src/typeguard_annotatedtypes_plugin/__init__.py:63-64 | a fixed-offset spec accepts every datetime with the same offset whatever the names |
| Checkers.ZoneNameOfUnnamedOffset | src/typeguard_annotatedtypes_plugin/__init__.py:61-62 | spec "UTC" accepts the unnamed offset zero and rejects a six-hour offset; "UTC+01:00" names the one-hour offset |
| Dispatch.ValidatorsTable | src/typeguard_annotatedtypes_plugin/__init__.py:71-81 | the table has exactly nine keys, no user class among them, and `slice` maps to the same checker as `Len` |
| Dispatch.Validate | src/typeguard_annotatedtypes_plugin/__init__.py:139-140 | each known class reaches its own checker; an unknown class or a user subclass raises KeyError with its class |
| Dispatch.DispatchNeverFailsClassAssertion | src/typeguard_annotatedtypes_plugin/__init__.py:139-140 | under dispatch an AssertionError comes only from a user predicate or from a timezone check on a non-datetime |
| Dispatch.SubclassIsNotDispatched | src/typeguard_annotatedtypes_plugin/__init__.py:140 | a user subclass of any constraint class raises KeyError, even where its base class (e.g. `Gt(4)` on 5) would accept |
| Dispatch.Translate | src/typeguard_annotatedtypes_plugin/__init__.py:139-145 | a truthy result passes; a falsy one fails naming the value and constraint; an exception of the call is wrapped with the value; an exception of the truth test, which runs outside the `try`, escapes unwrapped |
| Dispatch.CheckAnnotatedType | src/typeguard_annotatedtypes_plugin/__init__.py:124-145 | a base-type failure is returned unchanged before any checker; otherwise the table outcome is translated; passes iff the base check passes and the constraint accepts |
| Dispatch.CheckPredicate | src/typeguard_annotatedtypes_plugin/__init__.py:84-105 | base-type failure first; then the predicate's own outcome, translated; an object without `func` is wrapped as AttributeError |
| Dispatch.BaseFailurePrecedes | src/typeguard_annotatedtypes_plugin/__init__.py:92-98 | when the host rejects, both checkers give the host's error whatever the constraint |
| Dispatch.PredicateCheckersAgree | src/typeguard_annotatedtypes_plugin/__init__.py:77-105 | on a plain Predicate both checkers give the same verdict; on a Predicate subclass only the direct one calls it |
| Dispatch.Message | src/typeguard_annotatedtypes_plugin/__init__.py:141-145 | no TypeCheckError is raised iff the verdict passes or an exception escapes; the host message is kept; a plugin failure is "with value=" and the value's repr, followed by " failed " and the constraint's repr, or by " raised an error: " and the exception's repr |
| Lookup.FirstInstance | src/typeguard_annotatedtypes_plugin/__init__.py:115-117 | finds the first matching extra and no earlier match exists, or none matches |
| Lookup.Select | src/typeguard_annotatedtypes_plugin/__init__.py:111-119 | the origin wins if it is an instance; otherwise a result exists iff the first matching extra is truthy, and the result is that extra; the result is always an instance |
| Lookup.PredicateCheckerLookup | src/typeguard_annotatedtypes_plugin/__init__.py:108-121 | declines iff the selection is empty, otherwise binds the direct predicate checker to exactly the selected Predicate |
| Lookup.BaseMetadataCheckerLookup | src/typeguard_annotatedtypes_plugin/__init__.py:148-161 | declines iff the selection is empty, otherwise binds `check_annotated_type` to exactly the selected BaseMetadata |
| Lookup.Invoke | src/typeguard_annotatedtypes_plugin/__init__.py:121 | a host rejection gives the host's error; otherwise the verdict is the translation of the bound constraint's outcome (through the table for `check_annotated_type`, by a direct call for a Predicate), so a falsy result fails and an exception is raised wrapped; the bound checker passes iff the bound constraint accepts the value (through the table, or by a direct call for a Predicate); a failure names the value and the bound constraint |
| Lookup.LookupThenCheck | src/typeguard_annotatedtypes_plugin/__init__.py:108-161 | once a lookup answers, the value passes iff the host accepts it and the constraint that lookup selects accepts it |
| Lookup.SelectionOrder | src/typeguard_annotatedtypes_plugin/__init__.py:152-158 | the first instance among the extras wins over later ones, and an instance as origin wins over all extras |
| Lookup.FallThrough | src/typeguard_annotatedtypes_plugin/__init__.py:154-159 | with no instance anywhere the lookup declines; a falsy first instance makes it decline although a later one exists |
| Lookup.LookupsIgnoreArgs | src/typeguard_annotatedtypes_plugin/__init__.py:108-161 | neither lookup depends on the generic arguments |
| Lookup.PredicateOriginSeenByBoth | src/typeguard_annotatedtypes_plugin/__init__.py:112-113 | a Predicate origin is picked by both lookups, since Predicate is BaseMetadata |
| Lookup.GreaterThanFourScenario | tests/test_all.py:21-58 | `Annotated[int, Gt(4)]`: 5 passes, 4 fails naming `Gt(4)`, a string gets the host's error |
| Lookup.PredicateScenario | tests/test_predicate.py:12-33 | `Annotated[str, Predicate(f)]`: bound to the predicate; accepted, rejected and raising values give Pass, Failed and Raised |
| Lookup.SliceNeverSelected | src/typeguard_annotatedtypes_plugin/__init__.py:112-116 | a raw slice, as origin or as extra, is selected by neither lookup, which both decline |
| Lookup.GroupedAndUnlistedMetadata | src/typeguard_annotatedtypes_plugin/__init__.py:148-161 | an `Interval` extra, not BaseMetadata, makes both lookups decline; `MinLen`, BaseMetadata absent from the table, raises KeyError on every value the host accepts |
| Registry.CheckerChain.Extend | src/typeguard_annotatedtypes_plugin/__init__.py:164 | the list becomes the old list followed by the new entries |
| Registry.Registered | src/typeguard_annotatedtypes_plugin/__init__.py:164-169 | the old entries stay in place and order, followed by the predicate lookup, then the base-metadata lookup |
| Registry.RegisterPlugin | src/typeguard_annotatedtypes_plugin/__init__.py:164-169 | the host list after import is the registered form of the list before |
| Registry.RegistrationAddsOneCopyEach | src/typeguard_annotatedtypes_plugin/__init__.py:164-169 | each registration adds one copy of each lookup and leaves the others' counts as they were, so registering twice is not idempotent |
| Registry.PredicateLookupAskedFirst | src/typeguard_annotatedtypes_plugin/__init__.py:164-169 | behind entries that decline, the chain answers with the predicate lookup if it answers, else with the base-metadata lookup |
| Registry.OriginConstraintReenters | src/typeguard_annotatedtypes_plugin/__init__.py:112-113 | behind declining entries, a constraint used as origin type resolves again to a checker bound to that same constraint |

## Left out

- Bounds and numbers are `int`. Float, `Decimal`, `date` and `datetime` ordering, and floating `%`, are not modelled.
- The float-classification, case and unit constraints reach the plugin only as predicates or as unknown classes (`OtherMetadata`).
- A non-number under a comparison or `%` raises TypeError in the model. The string-formatting meaning of `str % int` is not modelled.
- `repr` texts and the host's own messages are parameters. The model does not fix their content.
- Timezone offsets are whole minutes. Seconds and microseconds in a `timezone` offset, and in its default name, are not modelled.
- The host's `check_type` (and the `memo` configuration it is given) is an oracle. typeguard's loop over the chain appears only as `Registry.Resolve`.
- A user predicate that raises a BaseException outside `Exception` (e.g. KeyboardInterrupt) would escape the `except`. It is not modelled.
- Grouped metadata such as `Interval(gt=4)` is not BaseMetadata or a Predicate, so in the model it is a `Plain` extra. Both lookups skip it and no constraint is checked (`Lookup.GroupedAndUnlistedMetadata`). The tests at tests/test_all.py:581-740 expect "failed Interval(...)" instead. `MinLen`, `MaxLen` and other BaseMetadata classes absent from the table are `OtherMetadata` and raise KeyError, reported as "raised an error". The tests at tests/test_all.py:827-1107 expect "failed" instead. The model follows the code.
- The Python name shadowing of `check_predicate` is not modelled: the two are distinct members, `Checkers.CheckPredicate` and `Dispatch.CheckPredicate`.
- The tests expect `Len(3, 5)` to accept "12345" and `Len(3, 3)` to accept "123" (tests/test_all.py:1147-1224). That relies on a `Len` of the constraint library with an inclusive maximum. The model follows the exclusive `max_exclusive` test the code applies (src/typeguard_annotatedtypes_plugin/__init__.py:48), so `Checkers.LenExamples` rejects length 5 under `Len(3, 5)`.
- `src/typeguard_annotatedtypes_plugin/util.py` (debug tracing) and `tests/cases_generator.py` (test generation) carry no behaviour of the core and are not part of this model.
- Dispatch.Translate: a result whose truth test raises is modelled by `Untestable` and escapes as `Escaped`, but only for a user predicate's result. The leaf checkers return plain booleans, so none of them produces it.
- Lookup.Select: when the origin type is itself a constraint, the bound checker's base check `check_type(value, origin_type)` goes back through the host's chain. The chain picks the same constraint again (`Registry.OriginConstraintReenters`), which plausibly recurses without end in the host. The model's `host` oracle answers freely and does not capture that recursion.
