/** The leaf checkers: one `(constraint, value) -> outcome` decision per
    constraint kind. Each starts, as the Python does, by asserting that the
    constraint is an instance of its class; the assertion is seen through
    user subclasses (`Unwrap`). */
module Checkers {
  import opened Model

  /** A comparison `val <op> bound` against an int bound: Python raises
      TypeError when the value is not a number. */
  function CheckGt(c: Constraint, v: Value): (r: Outcome)
    ensures Accepts(r) <==> Unwrap(c).Gt? && v.Num? && v.n > Unwrap(c).gt
    ensures r.Returned? <==> Unwrap(c).Gt? && v.Num?
    ensures r.Threw? ==> r.error == if Unwrap(c).Gt? then TypeError else AssertionError
    ensures !r.Untestable?
  {
    match Unwrap(c)
    case Gt(bound) => if v.Num? then Returned(v.n > bound) else Threw(TypeError)
    case _ => Threw(AssertionError)
  }

  function CheckLt(c: Constraint, v: Value): (r: Outcome)
    ensures Accepts(r) <==> Unwrap(c).Lt? && v.Num? && v.n < Unwrap(c).lt
    ensures r.Returned? <==> Unwrap(c).Lt? && v.Num?
    ensures r.Threw? ==> r.error == if Unwrap(c).Lt? then TypeError else AssertionError
    ensures !r.Untestable?
  {
    match Unwrap(c)
    case Lt(bound) => if v.Num? then Returned(v.n < bound) else Threw(TypeError)
    case _ => Threw(AssertionError)
  }

  function CheckGe(c: Constraint, v: Value): (r: Outcome)
    ensures Accepts(r) <==> Unwrap(c).Ge? && v.Num? && v.n >= Unwrap(c).ge
    ensures r.Returned? <==> Unwrap(c).Ge? && v.Num?
    ensures r.Threw? ==> r.error == if Unwrap(c).Ge? then TypeError else AssertionError
    ensures !r.Untestable?
  {
    match Unwrap(c)
    case Ge(bound) => if v.Num? then Returned(v.n >= bound) else Threw(TypeError)
    case _ => Threw(AssertionError)
  }

  function CheckLe(c: Constraint, v: Value): (r: Outcome)
    ensures Accepts(r) <==> Unwrap(c).Le? && v.Num? && v.n <= Unwrap(c).le
    ensures r.Returned? <==> Unwrap(c).Le? && v.Num?
    ensures r.Threw? ==> r.error == if Unwrap(c).Le? then TypeError else AssertionError
    ensures !r.Untestable?
  {
    match Unwrap(c)
    case Le(bound) => if v.Num? then Returned(v.n <= bound) else Threw(TypeError)
    case _ => Threw(AssertionError)
  }

  /** On integers a strict bound is the non-strict bound one step further:
      `Gt(b)` and `Ge(b + 1)` decide every value alike, and so do `Lt(b)`
      and `Le(b - 1)`. */
  lemma StrictIsShiftedNonStrict(b: int, v: Value)
    ensures CheckGt(Gt(b), v) == CheckGe(Ge(b + 1), v)
    ensures CheckLt(Lt(b), v) == CheckLe(Le(b - 1), v)
  {
  }

  /** On numbers `Gt(b)` accepts exactly what `Le(b)` rejects, and `Lt(b)`
      exactly what `Ge(b)` rejects; the bound itself goes to the non-strict
      side. */
  lemma BoundsComplement(b: int, n: int)
    ensures Accepts(CheckGt(Gt(b), Num(n))) <==> !Accepts(CheckLe(Le(b), Num(n)))
    ensures Accepts(CheckLt(Lt(b), Num(n))) <==> !Accepts(CheckGe(Ge(b), Num(n)))
    ensures Accepts(CheckGe(Ge(b), Num(b))) && !Accepts(CheckGt(Gt(b), Num(b)))
    ensures Accepts(CheckLe(Le(b), Num(b))) && !Accepts(CheckLt(Lt(b), Num(b)))
  {
  }

  /** Python's `//` on ints: floor division, the quotient rounded towards
      negative infinity. Dafny's `/` is Euclidean and agrees with it for a
      positive divisor only. */
  function FloorDiv(a: int, m: int): int
    requires m != 0
  {
    if m > 0 || a % m == 0 then a / m else a / m - 1
  }

  /** Python's `%` on ints: the remainder takes the sign of the divisor. */
  function PyMod(a: int, m: int): int
    requires m != 0
  {
    if m > 0 || a % m == 0 then a % m else a % m + m
  }

  /** `FloorDiv` and `PyMod` are Python's `divmod`: they rebuild the
      dividend, and the remainder lies between zero and the divisor. */
  lemma PyDivMod(a: int, m: int)
    requires m != 0
    ensures a == m * FloorDiv(a, m) + PyMod(a, m)
    ensures m > 0 ==> 0 <= PyMod(a, m) < m
    ensures m < 0 ==> m < PyMod(a, m) <= 0
  {
    if !(m > 0 || a % m == 0) {
      calc {
        m * FloorDiv(a, m) + PyMod(a, m);
        m * (a / m - 1) + (a % m + m);
        m * (a / m) + a % m;
        a;
      }
    }
  }

  /** A zero Python remainder means the divisor divides the dividend, and so
      does a zero Euclidean remainder: the two operators agree on it. */
  lemma PyModZeroIffDivides(a: int, m: int)
    requires m != 0
    ensures PyMod(a, m) == 0 <==> a % m == 0
    ensures PyMod(a, m) == 0 <==> exists k :: a == k * m
  {
    if PyMod(a, m) == 0 {
      PyDivMod(a, m);
      assert a == FloorDiv(a, m) * m;
    }
    if exists k :: a == k * m {
      var k :| a == k * m;
      MultipleHasZeroRemainder(k, m);
    }
  }

  /** A non-zero multiple of `m` is at least `m` away from zero. */
  lemma MultipleAwayFromZero(m: int, d: int)
    requires d != 0
    ensures m > 0 ==> (m * d >= m || m * d <= -m)
    ensures m < 0 ==> (m * d <= m || m * d >= -m)
    decreases if d > 0 then d else 1 - d
  {
    if d > 0 {
      assert m * d == m + m * (d - 1);
      if d > 1 { MultipleAwayFromZero(m, d - 1); }
    } else {
      assert m * d == -(m * -d);
      MultipleAwayFromZero(m, -d);
    }
  }

  lemma MultipleHasZeroRemainder(k: int, m: int)
    requires m != 0
    ensures (k * m) % m == 0
  {
    var a := k * m;
    var q, r := a / m, a % m;
    assert m * (k - q) == r by {
      assert a == m * q + r;
      assert m * (k - q) == m * k - m * q;
    }
    if k - q != 0 {
      MultipleAwayFromZero(m, k - q);
    }
  }

  /** `val % multiple_of == 0`: a zero divisor raises ZeroDivisionError and a
      non-number raises TypeError. */
  function CheckMultipleOf(c: Constraint, v: Value): (r: Outcome)
    ensures Accepts(r) <==>
      Unwrap(c).MultipleOf? && v.Num? && Unwrap(c).multipleOf != 0 &&
      exists k :: v.n == k * Unwrap(c).multipleOf
    ensures r == Threw(ZeroDivisionError) <==>
      Unwrap(c).MultipleOf? && v.Num? && Unwrap(c).multipleOf == 0
    ensures r.Returned? <==> Unwrap(c).MultipleOf? && v.Num? && Unwrap(c).multipleOf != 0
    ensures r.Threw? ==>
      r.error == (if !Unwrap(c).MultipleOf? then AssertionError
                  else if !v.Num? then TypeError
                  else ZeroDivisionError)
    ensures !r.Untestable?
  {
    match Unwrap(c)
    case MultipleOf(m) =>
      if !v.Num? then Threw(TypeError)
      else if m == 0 then Threw(ZeroDivisionError)
      else
        var divides := PyMod(v.n, m) == 0;
        PyModZeroIffDivides(v.n, m);
        assert divides <==> exists k :: v.n == k * Unwrap(c).multipleOf;
        var o := Returned(divides);
        assert Accepts(o) <==> divides;
        assert Unwrap(c).MultipleOf? && v.Num? && Unwrap(c).multipleOf != 0;
        o
    case _ => Threw(AssertionError)
  }

  /** `MultipleOf(3)` accepts 0, 3 and 9 and rejects 1, 2 and 4; a negative
      multiple, and a multiple of a negative divisor, have a zero Python
      remainder too; a zero divisor raises ZeroDivisionError. */
  lemma MultipleOfExamples()
    ensures Accepts(CheckMultipleOf(MultipleOf(3), Num(0)))
    ensures Accepts(CheckMultipleOf(MultipleOf(3), Num(3)))
    ensures Accepts(CheckMultipleOf(MultipleOf(3), Num(9)))
    ensures CheckMultipleOf(MultipleOf(3), Num(1)) == Returned(false)
    ensures CheckMultipleOf(MultipleOf(3), Num(2)) == Returned(false)
    ensures CheckMultipleOf(MultipleOf(3), Num(4)) == Returned(false)
    ensures Accepts(CheckMultipleOf(MultipleOf(3), Num(-6)))
    ensures Accepts(CheckMultipleOf(MultipleOf(-3), Num(9)))
    ensures CheckMultipleOf(MultipleOf(-3), Num(1)) == Returned(false)
    ensures CheckMultipleOf(MultipleOf(0), Num(9)) == Threw(ZeroDivisionError)
  {
    assert 0 == 0 * 3 && 3 == 1 * 3 && 9 == 3 * 3 && -6 == -2 * 3 && 9 == -3 * -3;
  }

  /** `start or 0`: a missing start gives zero (a zero start is falsy too,
      and gives the same zero). */
  function OrZero(x: Option<int>): int {
    match x
    case Some(k) => k
    case None => 0
  }

  /** A raw `slice` is read as `Len(start or 0, stop)`; `Len` is kept. */
  function AsLen(c: Constraint): (r: Constraint)
    requires c.Slice? || c.Len?
    ensures r.Len?
    ensures c.Slice? ==> r.minInclusive.Some?
  {
    if c.Slice? then Len(Some(OrZero(c.start)), c.stop) else c
  }

  /** Length bounds: a missing minimum raises TypeError whatever the value;
      otherwise the length must reach the minimum and stay strictly below the
      maximum when there is one. `len()` of a value without a length raises
      TypeError. */
  function CheckLen(c: Constraint, v: Value): (r: Outcome)
    ensures Unwrap(c).Len? && Unwrap(c).minInclusive.None? ==> r == Threw(TypeError)
    ensures Unwrap(c).Len? ==> (Accepts(r) <==>
      Unwrap(c).minInclusive.Some? && v.Sized? && Unwrap(c).minInclusive.value <= v.size &&
      (Unwrap(c).maxExclusive.None? || v.size < Unwrap(c).maxExclusive.value))
    ensures Unwrap(c).Slice? ==> (Accepts(r) <==>
      v.Sized? && OrZero(Unwrap(c).start) <= v.size &&
      (Unwrap(c).stop.None? || v.size < Unwrap(c).stop.value))
    ensures (Unwrap(c).Len? || Unwrap(c).Slice?) && r.Threw? ==> r.error == TypeError
    ensures !(Unwrap(c).Len? || Unwrap(c).Slice?) ==> r == Threw(AssertionError)
    ensures Unwrap(c).Slice? ==> (r.Returned? <==> v.Sized?)
    ensures Unwrap(c).Len? && Unwrap(c).minInclusive.Some? ==> (r.Returned? <==> v.Sized?)
    ensures !r.Untestable?
  {
    var u := Unwrap(c);
    if !(u.Slice? || u.Len?) then Threw(AssertionError)
    else
      var d := AsLen(u);
      if d.minInclusive.None? then Threw(TypeError)
      else if !v.Sized? then Threw(TypeError)
      else if v.size < d.minInclusive.value then Returned(false)
      else if d.maxExclusive.Some? && v.size >= d.maxExclusive.value then Returned(false)
      else Returned(true)
  }

  /** A slice decides every value as the `Len` it is converted to. */
  lemma SliceIsLen(start: Option<int>, stop: Option<int>, v: Value)
    ensures CheckLen(Slice(start, stop), v) == CheckLen(Len(Some(OrZero(start)), stop), v)
  {
  }

  /** The maximum is exclusive: a length equal to it is rejected, one below
      it (and reaching the minimum) accepted; a maximum not above the minimum
      admits no length at all. */
  lemma LenMaxExclusive(lo: int, hi: nat, n: nat)
    ensures !Accepts(CheckLen(Len(Some(lo), Some(hi)), Sized(hi)))
    ensures lo <= n < hi ==> Accepts(CheckLen(Len(Some(lo), Some(hi)), Sized(n)))
    ensures hi <= lo ==> !Accepts(CheckLen(Len(Some(lo), Some(hi)), Sized(n)))
  {
  }

  /** `Len(3, 5)` on strings: lengths 3 and 4 pass, 2 and 5 fail; a
      `Len` without a minimum raises even on the empty string. */
  lemma LenExamples()
    ensures Accepts(CheckLen(Len(Some(3), Some(5)), Sized(3)))
    ensures Accepts(CheckLen(Len(Some(3), Some(5)), Sized(4)))
    ensures CheckLen(Len(Some(3), Some(5)), Sized(2)) == Returned(false)
    ensures CheckLen(Len(Some(3), Some(5)), Sized(5)) == Returned(false)
    ensures CheckLen(Len(None, Some(5)), Sized(0)) == Threw(TypeError)
    ensures Accepts(CheckLen(Slice(None, Some(2)), Sized(1)))
  {
  }

  /** The first check_predicate: whatever the predicate's function returns
      or raises. */
  function CheckPredicate(c: Constraint, v: Value): (r: Outcome)
    ensures Unwrap(c).Predicate? ==> r == Unwrap(c).func(v)
    ensures !Unwrap(c).Predicate? ==> r == Threw(AssertionError)
  {
    match Unwrap(c)
    case Predicate(f) => f(v)
    case _ => Threw(AssertionError)
  }

  /** `str(n)` of a non-negative int: its decimal numeral. */
  function Digits(n: nat): (s: string)
    ensures |s| >= 1
    ensures forall i :: 0 <= i < |s| ==> '0' <= s[i] <= '9'
    ensures n < 10 ==> s == ['0' + n as char]
  {
    var d := ['0' + (n % 10) as char];
    if n < 10 then d else Digits(n / 10) + d
  }

  /** The number a string of decimal digits denotes, read most significant
      digit first. */
  function NumeralValue(s: string): int {
    if s == [] then 0 else NumeralValue(s[..|s| - 1]) * 10 + (s[|s| - 1] as int - '0' as int)
  }

  /** `Digits` writes the number it is given. */
  lemma {:induction false} DigitsDenote(n: nat)
    ensures NumeralValue(Digits(n)) == n
  {
    var s := Digits(n);
    assert s[|s| - 1] as int - '0' as int == n % 10;
    if n >= 10 {
      assert s[..|s| - 1] == Digits(n / 10);
      DigitsDenote(n / 10);
    } else {
      assert s[..|s| - 1] == [];
    }
  }

  /** `%02d` of a non-negative number. */
  function TwoDigits(n: nat): string {
    if n < 10 then "0" + Digits(n) else Digits(n)
  }

  /** `TwoDigits` writes the number, padded to two digits below 100. */
  lemma TwoDigitsDenote(n: nat)
    ensures NumeralValue(TwoDigits(n)) == n
    ensures n < 100 ==> |TwoDigits(n)| == 2
  {
    DigitsDenote(n);
    if n < 10 {
      var s := TwoDigits(n);
      assert s[..|s| - 1] == "0";
      assert ("0")[..0] == [];
    } else if n < 100 {
      assert |Digits(n / 10)| == 1;
    }
  }

  /** The name `datetime.timezone.tzname()` reports for an unnamed fixed
      offset: "UTC" for a zero offset, otherwise "UTC+HH:MM" or "UTC-HH:MM". */
  function DefaultTzName(minutes: int): (s: string)
    ensures |s| >= 3 && s[..3] == "UTC"
    ensures s == "UTC" <==> minutes == 0
    ensures minutes > 0 ==> s[..4] == "UTC+"
    ensures minutes < 0 ==> s[..4] == "UTC-"
  {
    if minutes == 0 then "UTC"
    else
      var sign := if minutes < 0 then "-" else "+";
      var m: nat := if minutes < 0 then -minutes else minutes;
      "UTC" + sign + TwoDigits(m / 60) + ":" + TwoDigits(m % 60)
  }

  /** For an offset strictly inside a day, the only offsets `timezone`
      admits, the default name is "UTC", a sign, two hour digits, a colon
      and two minute digits, and the digits are the offset's hours and
      remaining minutes. */
  lemma DefaultTzNameFields(minutes: int)
    requires -24 * 60 < minutes < 24 * 60 && minutes != 0
    ensures var s := DefaultTzName(minutes);
      var m := if minutes < 0 then -minutes else minutes;
      |s| == 9 && s[6] == ':' &&
      (forall i :: i in {4, 5, 7, 8} ==> '0' <= s[i] <= '9') &&
      NumeralValue(s[4..6]) == m / 60 && NumeralValue(s[7..9]) == m % 60
  {
    var m: nat := if minutes < 0 then -minutes else minutes;
    TwoDigitsDenote(m / 60);
    TwoDigitsDenote(m % 60);
    var s := DefaultTzName(minutes);
    var sign := if minutes < 0 then "-" else "+";
    assert s == "UTC" + sign + TwoDigits(m / 60) + ":" + TwoDigits(m % 60);
    assert s[4..6] == TwoDigits(m / 60);
    assert s[7..9] == TwoDigits(m % 60);
  }

  /** `tzinfo.tzname()`. */
  function TzName(info: TzInfo): string {
    match info
    case FixedOffset(m, name) => (match name case Some(n) => n case None => DefaultTzName(m))
    case Zone(_, abbrev) => abbrev
  }

  /** `tzinfo == tz` for a `datetime.timezone` tz: timezone compares offsets
      only and is never equal to a tzinfo of another class. */
  predicate SameFixedOffset(info: TzInfo, minutes: int) {
    info.FixedOffset? && info.minutes == minutes
  }

  /** The timezone checker, keyed on the kind of the spec: a string names
      the zone, a `timezone` must equal the value's tzinfo, None demands a
      naive value, and anything else (the ellipsis) only an aware one. A
      value that is not a datetime fails the checker's assertion. */
  function CheckTimezone(c: Constraint, v: Value): (r: Outcome)
    ensures r.Returned? <==> Unwrap(c).Timezone? && v.Stamp?
    ensures r.Threw? ==> r.error == AssertionError
    ensures !r.Untestable?
    ensures Accepts(r) ==> (Unwrap(c).tz.TzNone? <==> v.tzinfo.None?)
    ensures r.Returned? && v.tzinfo.None? ==> (r.truthy <==> Unwrap(c).tz.TzNone?)
    ensures r.Returned? && Unwrap(c).tz.TzStr? ==>
      (r.truthy <==> v.tzinfo.Some? && TzName(v.tzinfo.value) == Unwrap(c).tz.zone)
    ensures r.Returned? && Unwrap(c).tz.TzFixed? ==>
      (r.truthy <==> v.tzinfo.Some? && SameFixedOffset(v.tzinfo.value, Unwrap(c).tz.minutes))
    ensures r.Returned? && (Unwrap(c).tz.TzEllipsis? || Unwrap(c).tz.TzObject?) ==>
      (r.truthy <==> v.tzinfo.Some?)
  {
    match Unwrap(c)
    case Timezone(spec) =>
      if !v.Stamp? then Threw(AssertionError)
      else
        var aware := v.tzinfo.Some?;
        (match spec
         case TzStr(zone) => Returned(aware && zone == TzName(v.tzinfo.value))
         case TzFixed(m, _) => Returned(aware && SameFixedOffset(v.tzinfo.value, m))
         case TzNone => Returned(!aware)
         case _ => Returned(aware))
    case _ => Threw(AssertionError)
  }

  /** A naive datetime passes only `Timezone(None)`, and `Timezone(None)`
      passes only naive datetimes. */
  lemma NaiveOnlyUnderNone(spec: TzSpec, tz: Option<TzInfo>)
    ensures Accepts(CheckTimezone(Timezone(spec), Stamp(tz))) ==> (spec.TzNone? <==> tz.None?)
    ensures Accepts(CheckTimezone(Timezone(spec), Stamp(None))) <==> spec.TzNone?
  {
  }

  /** A `timezone` spec matches by value: a datetime whose fixed offset
      equals the spec's is accepted whatever either name is, e.g. the
      offset-zero spec accepts a datetime in offset zero named "UTC" or
      "Europe/London". */
  lemma FixedOffsetIgnoresNames(m: int, specName: Option<string>, valueName: Option<string>)
    ensures Accepts(CheckTimezone(Timezone(TzFixed(m, specName)), Stamp(Some(FixedOffset(m, valueName)))))
  {
  }

  /** A zone-name spec matches the name the tzinfo reports: the unnamed
      offset-zero timezone (`timezone.utc`) reports "UTC", and a one-hour
      offset "UTC+01:00". */
  lemma ZoneNameOfUnnamedOffset()
    ensures Accepts(CheckTimezone(Timezone(TzStr("UTC")), Stamp(Some(FixedOffset(0, None)))))
    ensures Accepts(CheckTimezone(Timezone(TzStr("UTC+01:00")), Stamp(Some(FixedOffset(60, None)))))
    ensures !Accepts(CheckTimezone(Timezone(TzStr("UTC")), Stamp(Some(FixedOffset(360, None)))))
  {
    assert Digits(1) == "1";
    assert Digits(0) == "0";
    assert TwoDigits(1) == "01" && TwoDigits(0) == "00";
  }
}
