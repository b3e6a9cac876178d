/** The durations of a job file: runs of number and unit pairs, exact in whole milliseconds on int64. */
module Duration {
  import opened Wrappers
  import opened Backoff
  import opened Numerals
  import Text

  const NANOS := 1_000_000
  const MAX_MILLIS := MAX_INT64 / NANOS
  const MAX_FRACTION := 9

  datatype Unit = Ms | S | M | H {
    function Suffix(): string { match this case Ms => "ms" case S => "s" case M => "m" case H => "h" }
    function Millis(): (n: nat)
      ensures 1 <= n <= 3_600_000
    {
      match this case Ms => 1 case S => 1000 case M => 60_000 case H => 3_600_000
    }
  }

  datatype Complaint =
    | Empty | OuterSpace | Sign | InnerSpace | NoNumber | NoFraction | LongFraction | NoUnit | OtherUnit
    | TooLong | TooFine | Zero

  // ----- checked arithmetic -----

  /** The division of the language: towards zero. */
  function Quotient(a: int, b: int): int
    requires b != 0
  {
    if a >= 0 then a / b else -((-a) / b)
  }

  method MulChecked(a: int, b: int) returns (r: Result<int, Complaint>)
    requires 0 <= a <= MAX_INT64 && 0 <= b <= MAX_INT64
    ensures r == if a * b > MAX_MILLIS then Err(TooLong) else Ok(a * b)
  {
    if a == 0 || b == 0 { return Ok(0); }
    var product := Wrap(a * b);
    WrapShows(a, b);
    if Quotient(product, b) != a || product > MAX_MILLIS { return Err(TooLong); }
    r := Ok(product);
  }

  /** A product of int64 values that wrapped never divides back. */
  lemma WrapShows(a: int, b: int)
    requires 0 < a <= MAX_INT64 && 0 < b <= MAX_INT64
    ensures a * b >= 1
    ensures Quotient(Wrap(a * b), b) == a <==> a * b <= MAX_INT64
  {
    TimesPositive(a, b);
    var p := Wrap(a * b);
    if a * b <= MAX_INT64 {
      assert p == a * b;
      DivBack(a, b);
    } else {
      var k :| p == a * b + k * TWO_64;
      assert k < 0;
      if p >= 0 { DivBelow(p, a, b); } else { NegativeQuotient(p, b); }
    }
  }

  lemma TimesPositive(a: int, b: int)
    requires a > 0 && b > 0
    ensures a * b >= 1
  {
  }

  lemma DivBack(a: int, b: int)
    requires a > 0 && b > 0
    ensures (a * b) / b == a
  {
    var p := a * b;
    var q := p / b;
    assert (a - q) * b == p % b;
    if a > q { TimesMore(1, a - q, b); }
    if a < q { TimesMore(1, q - a, b); }
  }

  lemma TimesMore(m: int, n: int, b: int)
    requires m <= n && b > 0
    ensures m * b <= n * b
  {
  }

  lemma DivBelow(p: int, a: int, b: int)
    requires p >= 0 && b > 0 && p < a * b
    ensures p / b < a
  {
    assert p == (p / b) * b + p % b;
    if p / b >= a { TimesMore(a, p / b, b); }
  }

  lemma NegativeQuotient(p: int, b: int)
    requires p < 0 && b > 0
    ensures Quotient(p, b) <= 0
  {
  }

  method AddChecked(a: int, b: int) returns (r: Result<int, Complaint>)
    requires 0 <= a <= MAX_INT64 && 0 <= b <= MAX_INT64
    ensures r == if a + b > MAX_MILLIS then Err(TooLong) else Ok(a + b)
  {
    var sum := Wrap(a + b);
    assert a + b > MAX_INT64 ==> sum == a + b - TWO_64;
    if sum < a || sum > MAX_MILLIS { return Err(TooLong); }
    r := Ok(sum);
  }

  // ----- digits -----

  method TakeDigits(s: string) returns (digits: string, rest: string)
    ensures digits == s[..Digits(s)] && rest == s[Digits(s)..]
  {
    var i := 0;
    while i < |s| && '0' <= s[i] <= '9'
      invariant 0 <= i <= |s| && forall j :: 0 <= j < i ==> Digit(s[j])
    {
      i := i + 1;
    }
    DigitsAre(s, i);
    return s[..i], s[i..];
  }

  function Pow10(n: nat): (p: nat)
    ensures p >= 1
  {
    if n == 0 then 1 else 10 * Pow10(n - 1)
  }

  method Scale(n: nat) returns (value: int)
    requires n <= MAX_FRACTION
    ensures value == Pow10(n) && IsInt64(value)
  {
    value := 1;
    for i := 0 to n
      invariant value == Pow10(i) && value <= Pow10(MAX_FRACTION)
    {
      PowGrows(i + 1, MAX_FRACTION);
      value := Wrap(value * 10);
    }
  }

  lemma PowGrows(m: nat, n: nat)
    requires m <= n
    ensures Pow10(m) <= Pow10(n) && Pow10(MAX_FRACTION) == 1_000_000_000
    decreases n
  {
    if m < n { PowGrows(m, n - 1); }
    assert Pow10(9) == 10 * Pow10(8) && Pow10(8) == 10 * Pow10(7) && Pow10(7) == 10 * Pow10(6);
    assert Pow10(6) == 10 * Pow10(5) && Pow10(5) == 10 * Pow10(4) && Pow10(4) == 10 * Pow10(3);
  }

  lemma {:induction false} PrefixValue(digits: string, i: nat)
    requires AllDigits(digits) && i <= |digits|
    ensures Value(digits[..i]) <= Value(digits)
    ensures i < |digits| ==> Value(digits[..i + 1]) == Value(digits[..i]) * 10 + (digits[i] as int - '0' as int) <= Value(digits)
    decreases |digits|
  {
    assert digits[..|digits|] == digits;
    if i < |digits| {
      assert digits[..i + 1][..i] == digits[..i];
      var before := digits[..|digits| - 1];
      PrefixValue(before, i);
      assert before[..i] == digits[..i];
      if i + 1 < |digits| { assert before[..i + 1] == digits[..i + 1]; }
    }
  }

  method DigitsValue(digits: string) returns (r: Result<int, Complaint>)
    requires AllDigits(digits)
    ensures r == if Value(digits) > MAX_MILLIS then Err(TooLong) else Ok(Value(digits))
  {
    var value := 0;
    for i := 0 to |digits|
      invariant value == Value(digits[..i]) <= MAX_MILLIS
    {
      PrefixValue(digits, i);
      var shifted := MulChecked(value, 10);
      if shifted.Err? { return shifted; }
      var sum := AddChecked(shifted.value, digits[i] as int - '0' as int);
      if sum.Err? { return sum; }
      value := sum.value;
    }
    assert digits[..|digits|] == digits;
    r := Ok(value);
  }

  // ----- one part -----

  /** The units in the order they are tried: ms before s, and before m. */
  function UnitAt(s: string): (u: Option<Unit>)
    ensures u.Some? ==> u.value.Suffix() <= s
  {
    if "ms" <= s then Some(Ms)
    else if "s" <= s then Some(S)
    else if "m" <= s then Some(M)
    else if "h" <= s then Some(H)
    else None
  }

  datatype Part = Part(digits: string, fraction: string, unit: Unit) {
    ghost predicate Valid() {
      digits != "" && AllDigits(digits) && AllDigits(fraction) && |fraction| <= MAX_FRACTION
    }

    function Written(): string { digits + Tail(fraction, unit) }

    /** The number as it stands without its point. */
    function Number(): nat
      requires AllDigits(digits) && AllDigits(fraction)
    {
      Value(digits + fraction)
    }

    /** The same in milliseconds, times the scale of the fraction. */
    function Scaled(): nat
      requires AllDigits(digits) && AllDigits(fraction)
    {
      Number() * unit.Millis()
    }

    /** What the parser can hold and store: the scaled number in range, and no finer than a millisecond. */
    predicate Fits()
      requires AllDigits(digits) && AllDigits(fraction)
    {
      Number() <= MAX_MILLIS && Scaled() <= MAX_MILLIS && Scaled() % Pow10(|fraction|) == 0
    }

    function Worth(): nat
      requires AllDigits(digits) && AllDigits(fraction)
    {
      Share(Scaled(), Pow10(|fraction|))
    }

    /** The amount as written, in milliseconds. */
    ghost function Amount(): real
      requires Valid()
    {
      Number() as real / Pow10(|fraction|) as real * unit.Millis() as real
    }
  }

  /** What follows the digits of a number. */
  function Tail(fraction: string, unit: Unit): string {
    if fraction == "" then unit.Suffix() else "." + (fraction + unit.Suffix())
  }

  function Share(n: nat, scale: nat): (r: nat)
    requires scale >= 1
    ensures r <= n
  {
    ShareSmaller(n, scale);
    n / scale
  }

  lemma ShareSmaller(n: nat, scale: nat)
    requires scale >= 1
    ensures 0 <= n / scale <= n
  {
    var q := n / scale;
    assert n == scale * q + n % scale;
    assert q >= 0 && (q >= 1 ==> scale * q >= q);
  }

  datatype Took = Took(fraction: string, unit: Unit, after: string)

  function SplitUnit(fraction: string, s: string): (r: Result<Took, Complaint>)
    ensures r.Ok? ==> r.value.fraction == fraction && s == r.value.unit.Suffix() + r.value.after
  {
    match UnitAt(s)
    case None => Err(if s == "" then NoUnit else OtherUnit)
    case Some(unit) => Ok(Took(fraction, unit, s[|unit.Suffix()|..]))
  }

  function SplitTail(s: string): (r: Result<Took, Complaint>)
    ensures r.Ok? ==>
      && AllDigits(r.value.fraction) && |r.value.fraction| <= MAX_FRACTION
      && s == Tail(r.value.fraction, r.value.unit) + r.value.after
  {
    if s != "" && s[0] == '.' then
      var m := Digits(s[1..]);
      if m == 0 then Err(NoFraction)
      else if m > MAX_FRACTION then Err(LongFraction)
      else
        match SplitUnit(s[1..][..m], s[1..][m..])
        case Err(e) => Err(e)
        case Ok(took) =>
          TailIs(s, m, took.unit, took.after);
          Ok(took)
    else SplitUnit("", s)
  }

  lemma TailIs(s: string, m: nat, unit: Unit, after: string)
    requires s != "" && s[0] == '.' && 0 < m < |s| && s[1..][m..] == unit.Suffix() + after
    ensures s == Tail(s[1..][..m], unit) + after
  {
    var t := s[1..];
    assert s == "." + t;
    assert t == t[..m] + (unit.Suffix() + after);
    Nest(".", t[..m], unit.Suffix(), after);
  }

  lemma Nest(a: string, b: string, c: string, d: string)
    ensures a + (b + (c + d)) == (a + (b + c)) + d
  {
  }

  lemma Attach(rest: string, n: nat, tail: string, after: string)
    requires n <= |rest| && rest[n..] == tail + after
    ensures rest == (rest[..n] + tail) + after
  {
    assert rest == rest[..n] + rest[n..];
  }

  /** The number and unit a text starts with. */
  function Split(rest: string): (r: Result<(Part, string), Complaint>)
    ensures r.Ok? ==> r.value.0.Valid() && rest == r.value.0.Written() + r.value.1
  {
    var n := Digits(rest);
    if n == 0 then Err(NoNumber)
    else
      match SplitTail(rest[n..])
      case Err(e) => Err(e)
      case Ok(Took(fraction, unit, after)) =>
        Attach(rest, n, Tail(fraction, unit), after);
        Ok((Part(rest[..n], fraction, unit), after))
  }

  function ReadPart(rest: string): (r: Result<(int, string), Complaint>)
    ensures r.Ok? ==> 0 <= r.value.0 <= MAX_MILLIS && |r.value.1| < |rest|
  {
    match Split(rest)
    case Err(e) => Err(e)
    case Ok((part, after)) =>
      if part.Number() > MAX_MILLIS || part.Scaled() > MAX_MILLIS then Err(TooLong)
      else if part.Scaled() % Pow10(|part.fraction|) != 0 then Err(TooFine)
      else Ok((part.Worth(), after))
  }

  method ParseDurationPart(rest: string) returns (r: Result<(int, string), Complaint>)
    ensures r == ReadPart(rest)
  {
    hide Value, Pow10, Wrap, Split, Tail, Unit.Suffix, Unit.Millis;
    var digits, after := TakeDigits(rest);
    var took := ParseTail(after);
    SplitIs(rest);
    if digits == "" { return Err(NoNumber); }
    if took.Err? { return Err(took.error); }
    var fraction, unit := took.value.fraction, took.value.unit;
    var worth := Weigh(Part(digits, fraction, unit));
    if worth.Err? { return Err(worth.error); }
    r := Ok((worth.value, took.value.after));
  }

  /** The arithmetic of one part, in scaled integers. */
  method Weigh(p: Part) returns (r: Result<int, Complaint>)
    requires p.Valid()
    ensures r == if p.Number() > MAX_MILLIS || p.Scaled() > MAX_MILLIS then Err(TooLong)
                 else if p.Scaled() % Pow10(|p.fraction|) != 0 then Err(TooFine)
                 else Ok(p.Worth())
  {
    hide Value, Pow10, Unit.Millis;
    var scale := Scale(|p.fraction|);
    var scaled := DigitsValue(p.digits + p.fraction);
    if scaled.Err? { return Err(TooLong); }
    assert scaled.value == p.Number();
    var product := MulChecked(scaled.value, p.unit.Millis());
    if product.Err? { return Err(TooLong); }
    assert product.value == p.Scaled();
    if product.value % scale != 0 { return Err(TooFine); }
    r := Ok(Share(product.value, scale));
  }

  /** The point, its digits and the unit. */
  method ParseTail(s: string) returns (r: Result<Took, Complaint>)
    ensures r == SplitTail(s)
  {
    hide Digits, Unit.Suffix;
    var fraction, after := "", s;
    if after != "" && after[0] == '.' {
      fraction, after := TakeDigits(after[1..]);
      if fraction == "" { return Err(NoFraction); }
      if |fraction| > MAX_FRACTION { return Err(LongFraction); }
    }
    var unit := UnitAt(after);
    if unit.None? { return Err(if after == "" then NoUnit else OtherUnit); }
    r := Ok(Took(fraction, unit.value, after[|unit.value.Suffix()|..]));
  }

  lemma SplitIs(rest: string)
    ensures var n := Digits(rest);
      Split(rest) == if n == 0 then Err(NoNumber)
        else match SplitTail(rest[n..])
             case Err(e) => Err(e)
             case Ok(Took(fraction, unit, after)) => Ok((Part(rest[..n], fraction, unit), after))
  {
    hide SplitTail, Digits;
  }

  // ----- the whole value -----

  function ReadAll(rest: string, total: int): (r: Result<int, Complaint>)
    decreases |rest|
  {
    if rest == "" then Ok(total)
    else
      match ReadPart(rest)
      case Err(e) => Err(e)
      case Ok((millis, after)) => if total + millis > MAX_MILLIS then Err(TooLong) else ReadAll(after, total + millis)
  }

  function Parse(text: string): (r: Result<int, Complaint>) {
    if text == "" then Err(Empty)
    else if Text.Trimmed(text) != text then Err(OuterSpace)
    else if "-" <= text || "+" <= text then Err(Sign)
    else if ' ' in text || '\t' in text then Err(InnerSpace)
    else
      match ReadAll(text, 0)
      case Err(e) => Err(e)
      case Ok(total) => if total == 0 then Err(Zero) else Ok(total * NANOS)
  }

  method ParseDuration(text: string) returns (r: Result<int, Complaint>)
    ensures r == Parse(text) && (r.Ok? ==> IsInt64(r.value))
  {
    hide Split, ReadPart, Text.Trimmed;
    if text == "" { return Err(Empty); }
    if Text.Trimmed(text) != text { return Err(OuterSpace); }
    if "-" <= text || "+" <= text { return Err(Sign); }
    if ' ' in text || '\t' in text { return Err(InnerSpace); }
    var total, rest := 0, text;
    while rest != ""
      invariant 0 <= total <= MAX_MILLIS && ReadAll(rest, total) == ReadAll(text, 0)
      decreases |rest|
    {
      var part := ParseDurationPart(rest);
      if part.Err? { return Err(part.error); }
      var sum := AddChecked(total, part.value.0);
      if sum.Err? { return Err(TooLong); }
      total := sum.value;
      rest := part.value.1;
    }
    if total == 0 { return Err(Zero); }
    r := Ok(Wrap(total * NANOS));
  }

  // ----- what a duration means -----

  function WrittenAll(parts: seq<Part>): string {
    if |parts| == 0 then "" else parts[0].Written() + WrittenAll(parts[1..])
  }

  ghost predicate AllFit(parts: seq<Part>) { forall i :: 0 <= i < |parts| ==> parts[i].Valid() && parts[i].Fits() }

  ghost function Total(parts: seq<Part>): (t: nat)
    requires AllFit(parts)
  {
    if |parts| == 0 then 0 else parts[0].Worth() + Total(parts[1..])
  }

  ghost function Amounts(parts: seq<Part>): real
    requires AllFit(parts)
  {
    if |parts| == 0 then 0.0 else parts[0].Amount() + Amounts(parts[1..])
  }

  /** No rounding anywhere: the whole milliseconds are the sum of what was written. */
  lemma {:induction false} TotalIsExact(parts: seq<Part>)
    requires AllFit(parts)
    ensures Total(parts) as real == Amounts(parts)
    decreases |parts|
  {
    if |parts| > 0 {
      var p := parts[0];
      assert p.Valid() && p.Fits() && AllFit(parts[1..]);
      WorthIsAmount(p);
      hide Part.Worth, Part.Amount, Part.Fits, AllFit;
      TotalIsExact(parts[1..]);
    }
  }

  lemma WorthIsAmount(p: Part)
    requires p.Valid() && p.Fits()
    ensures p.Worth() as real == p.Amount()
  {
    hide Part.Number, Pow10, Unit.Millis;
    Exactly(p.Number(), p.unit.Millis(), Pow10(|p.fraction|));
  }

  lemma Exactly(v: nat, unit: nat, scale: nat)
    requires scale >= 1 && (v * unit) % scale == 0
    ensures (v * unit / scale) as real == v as real / scale as real * unit as real
  {
    var q := v * unit / scale;
    assert q * scale == v * unit;
    assert q as real * scale as real == v as real * unit as real by { Casts(q, scale); Casts(v, unit); }
    var x := v as real / scale as real;
    assert x * scale as real == v as real;
    assert (x * unit as real) * scale as real == v as real * unit as real;
    CancelScale(q as real, x * unit as real, scale as real);
  }

  lemma Casts(a: nat, b: nat)
    ensures (a * b) as real == a as real * b as real
  {
  }

  lemma CancelScale(a: real, b: real, s: real)
    requires s >= 1.0 && a * s == b * s
    ensures a == b
  {
    assert (a - b) * s == 0.0;
  }

  ghost predicate Means(text: string, parts: seq<Part>, millis: int) {
    parts != [] && text == WrittenAll(parts) && AllFit(parts) && 0 < millis == Total(parts) <= MAX_MILLIS
  }

  ghost predicate Starts(s: string) { s == "" || Digit(s[0]) }

  lemma UnitAsWritten(fraction: string, u: Unit, after: string)
    requires Starts(after)
    ensures SplitUnit(fraction, u.Suffix() + after) == Ok(Took(fraction, u, after))
  {
    var suffix := u.Suffix();
    var s := suffix + after;
    assert s[|suffix|..] == after;
    UnitShows(u, s, after);
    hide UnitAt, Unit.Suffix, Starts;
  }

  /** The unit of a text, from its first two characters. */
  lemma UnitShows(u: Unit, s: string, after: string)
    requires s == u.Suffix() + after && Starts(after)
    ensures UnitAt(s) == Some(u) && s != ""
  {
    match u
    case Ms => assert s[..2] == "ms";
    case S => assert s[0] == 's';
    case M =>
      assert s[0] == 'm';
      if |s| > 1 { assert s[1] == after[0]; }
    case H => assert s[0] == 'h';
  }

  lemma TailAsWritten(fraction: string, u: Unit, after: string)
    requires AllDigits(fraction) && |fraction| <= MAX_FRACTION && Starts(after)
    ensures var s := Tail(fraction, u) + after;
      s != "" && !Digit(s[0]) && SplitTail(s) == Ok(Took(fraction, u, after))
  {
    var s := Tail(fraction, u) + after;
    UnitAsWritten(fraction, u, after);
    if fraction != "" {
      var t := u.Suffix() + after;
      Nest(".", fraction, u.Suffix(), after);
      assert s == "." + (fraction + t) && s[1..] == fraction + t;
      DigitsThen(fraction, t);
    }
  }

  /** A written part followed by another, or by the end, is split off as it was written. */
  lemma SplitsAsWritten(p: Part, after: string)
    requires p.Valid() && Starts(after)
    ensures Split(p.Written() + after) == Ok((p, after))
  {
    hide SplitTail, Digits, Tail, Starts;
    var t := Tail(p.fraction, p.unit) + after;
    TailAsWritten(p.fraction, p.unit, after);
    assert p.Written() + after == p.digits + t;
    DigitsThen(p.digits, t);
  }

  lemma ReadsOne(p: Part, after: string)
    requires p.Valid() && p.Fits() && Starts(after)
    ensures ReadPart(p.Written() + after) == Ok((p.Worth(), after)) && p.Written() + after != ""
    ensures Starts(p.Written() + after)
  {
    SplitsAsWritten(p, after);
    assert (p.Written() + after)[0] == p.digits[0];
    hide Split, Value, Pow10, Digits;
  }

  lemma ReadsOff(rest: string) returns (p: Part, after: string)
    requires ReadPart(rest).Ok?
    ensures p.Valid() && p.Fits() && rest == p.Written() + after && ReadPart(rest) == Ok((p.Worth(), after))
  {
    var took := Split(rest).value;
    p, after := took.0, took.1;
  }

  ghost predicate Sums(r: Result<int, Complaint>, total: int) {
    match r case Ok(t) => t == total case Err(_) => false
  }

  lemma ReadAllStep(rest: string, total: int, millis: int, after: string)
    requires rest != "" && ReadPart(rest) == Ok((millis, after)) && total + millis <= MAX_MILLIS
    ensures ReadAll(rest, total) == ReadAll(after, total + millis)
  {
    hide ReadPart;
  }

  lemma FitTail(parts: seq<Part>)
    requires parts != [] && AllFit(parts)
    ensures var p, rest := parts[0], parts[1..];
      && p.Valid() && p.Fits() && AllFit(rest)
      && Total(parts) == p.Worth() + Total(rest) && WrittenAll(parts) == p.Written() + WrittenAll(rest)
  {
  }

  lemma NothingWritten()
    ensures AllFit([]) && Total([]) == 0 && WrittenAll([]) == "" && Starts("")
    ensures forall total :: ReadAll("", total) == Ok(total)
  {
  }

  lemma {:induction false} ReadsBack(parts: seq<Part>, total: nat)
    requires AllFit(parts) && total + Total(parts) <= MAX_MILLIS
    ensures Sums(ReadAll(WrittenAll(parts), total), total + Total(parts))
    ensures Starts(WrittenAll(parts)) && (parts != [] ==> WrittenAll(parts) != "")
    decreases |parts|
  {
    NothingWritten();
    hide ReadPart, Part.Fits, Part.Worth, Part.Written, AllFit, Total, Starts, ReadAll, WrittenAll;
    if |parts| > 0 {
      var p, rest := parts[0], parts[1..];
      FitTail(parts);
      ReadsBack(rest, total + p.Worth());
      ReadsOne(p, WrittenAll(rest));
      ReadAllStep(WrittenAll(parts), total, p.Worth(), WrittenAll(rest));
    }
  }

  lemma FitCons(p: Part, more: seq<Part>)
    requires p.Valid() && p.Fits() && AllFit(more)
    ensures AllFit([p] + more) && Total([p] + more) == p.Worth() + Total(more)
    ensures WrittenAll([p] + more) == p.Written() + WrittenAll(more)
  {
    assert ([p] + more)[1..] == more;
    hide Part.Valid, Part.Fits, Part.Worth;
    forall i | 0 <= i < |[p] + more| ensures ([p] + more)[i].Valid() && ([p] + more)[i].Fits() {
      if i > 0 { assert ([p] + more)[i] == more[i - 1]; }
    }
  }

  lemma {:induction false} ReadsFrom(rest: string, total: nat) returns (parts: seq<Part>)
    requires ReadAll(rest, total).Ok? && total <= MAX_MILLIS
    ensures AllFit(parts) && rest == WrittenAll(parts) && (rest != "" ==> parts != [])
    ensures Sums(ReadAll(rest, total), total + Total(parts)) && total + Total(parts) <= MAX_MILLIS
    decreases |rest|
  {
    NothingWritten();
    hide ReadAll, ReadPart, Part.Fits, Part.Worth, Part.Written, AllFit, Total, WrittenAll;
    if rest == "" {
      parts := [];
    } else {
      ReadAllOk(rest, total);
      var p, after := ReadsOff(rest);
      var more := ReadsFrom(after, total + p.Worth());
      FitCons(p, more);
      parts := [p] + more;
    }
  }

  lemma ReadAllOk(rest: string, total: nat)
    requires rest != "" && ReadAll(rest, total).Ok? && total <= MAX_MILLIS
    ensures match ReadPart(rest)
      case Err(_) => false
      case Ok((millis, after)) => total + millis <= MAX_MILLIS && ReadAll(rest, total) == ReadAll(after, total + millis)
    ensures match ReadPart(rest) case Err(_) => true case Ok((_, after)) => |after| < |rest|
  {
    hide ReadPart;
  }

  predicate Plain(c: char) { Digit(c) || c == '.' || c == 'm' || c == 's' || c == 'h' }

  lemma PartIsPlain(p: Part, i: nat)
    requires p.Valid() && i < |p.Written()|
    ensures Plain(p.Written()[i])
  {
    var n, m := |p.digits|, |p.fraction|;
    if i < n {
      assert p.Written()[i] == p.digits[i];
    } else if m > 0 && n < i <= n + m {
      assert p.Written()[i] == p.fraction[i - n - 1];
    }
  }

  /** Only digits, points and the letters of the units are ever written. */
  lemma {:induction false} WrittenPlainly(parts: seq<Part>)
    requires AllFit(parts)
    ensures forall i :: 0 <= i < |WrittenAll(parts)| ==> Plain(WrittenAll(parts)[i])
    decreases |parts|
  {
    if |parts| > 0 {
      var p := parts[0];
      assert p.Valid();
      forall i | 0 <= i < |p.Written()| ensures Plain(p.Written()[i]) { PartIsPlain(p, i); }
      hide Plain, Part.Written, Part.Valid, Part.Fits;
      WrittenPlainly(parts[1..]);
    }
  }

  lemma PlainIsNoSpace(c: char)
    requires Plain(c)
    ensures !Text.IsSpace(c) && c != ' ' && c != '\t'
  {
  }

  lemma PlainIsTrimmed(text: string)
    requires forall i :: 0 <= i < |text| ==> Plain(text[i])
    ensures Text.Trimmed(text) == text && ' ' !in text && '\t' !in text
  {
    forall i | 0 <= i < |text| ensures !Text.IsSpace(text[i]) && text[i] != ' ' && text[i] != '\t' { PlainIsNoSpace(text[i]); }
    hide Text.IsSpace;
  }

  lemma ParsesAsWritten(parts: seq<Part>)
    requires parts != [] && AllFit(parts) && Total(parts) <= MAX_MILLIS
    ensures Parse(WrittenAll(parts)) == if Total(parts) == 0 then Err(Zero) else Ok(Total(parts) * NANOS)
  {
    hide ReadAll, WrittenAll, Total, AllFit, Text.Trimmed, Text.IsSpace;
    ReadsBack(parts, 0);
    WrittenPlainly(parts);
    PlainIsTrimmed(WrittenAll(parts));
  }

  /**
   * The parser accepts exactly the texts that are number and unit pairs, none finer than a millisecond and
   * all within range, and what it returns is their exact sum.
   */
  lemma ParsesExactly(text: string, d: int)
    ensures Parse(text) == Ok(d) <==> exists parts, millis :: Means(text, parts, millis) && d == millis * NANOS
  {
    hide ReadAll, WrittenAll, Total, AllFit, Text.Trimmed;
    if Parse(text) == Ok(d) {
      var parts := ReadsFrom(text, 0);
      assert Means(text, parts, Total(parts)) && d == Total(parts) * NANOS;
    }
    forall parts, millis | Means(text, parts, millis) && d == millis * NANOS ensures Parse(text) == Ok(d) {
      ParsesAsWritten(parts);
    }
  }

  // ----- what a complaint says -----

  /** A text that starts with this number, written with these digits before and after a point. */
  ghost predicate Shape(text: string, digits: string, fraction: string, after: string) {
    && digits != "" && AllDigits(digits) && AllDigits(fraction)
    && text == digits + (if fraction == "" then "" else "." + fraction) + after
  }

  ghost predicate StartsPart(text: string, p: Part, after: string) { p.Valid() && text == p.Written() + after }

  /** What stands where the reader stopped, after parts of this total. */
  ghost predicate Wrong(rest: string, total: int, e: Complaint) {
    match e
    case NoNumber => rest != "" && !Digit(rest[0])
    case NoFraction => exists d, after :: Shape(rest, d, "", "." + after) && (after == "" || !Digit(after[0]))
    case LongFraction => exists d, f, after :: Shape(rest, d, f, after) && |f| > 9
    case NoUnit => exists d, f :: Shape(rest, d, f, "") && |f| <= 9
    case OtherUnit => exists d, f, after :: Shape(rest, d, f, after) && |f| <= 9 && after != "" && after[0] !in "smh" && !Digit(after[0])
    case TooLong =>
      exists p, after :: StartsPart(rest, p, after) && (p.Number() > MAX_MILLIS || p.Scaled() > MAX_MILLIS || total + p.Worth() > MAX_MILLIS)
    case TooFine => exists p, after :: StartsPart(rest, p, after) && p.Scaled() <= MAX_MILLIS && p.Scaled() % Pow10(|p.fraction|) != 0
    case _ => false
  }

  lemma UnitStarts(s: string)
    requires s != "" && s[0] in "smh"
    ensures UnitAt(s).Some?
  {
    assert s == [s[0]] + s[1..];
  }

  lemma UnitWrong(d: string, f: string, s: string, rest: string, total: int)
    requires Shape(rest, d, f, s) && |f| <= 9 && SplitUnit(f, s).Err? && (s == "" || !Digit(s[0]))
    ensures Wrong(rest, total, SplitUnit(f, s).error)
  {
    if s != "" && s[0] in "smh" { UnitStarts(s); }
    hide Digit, UnitAt;
  }

  lemma PointWrong(rest: string, d: string, t: string, total: int)
    requires d != "" && AllDigits(d) && rest == d + ("." + t) && SplitTail("." + t).Err?
    ensures Wrong(rest, total, SplitTail("." + t).error)
  {
    var m := Digits(t);
    assert ("." + t)[1..] == t;
    hide Wrong, Digits, AllDigits, SplitUnit;
    if m == 0 {
      assert d + "" + ("." + t) == rest;
      NoFractionWrong(rest, d, t, total);
    } else {
      var f, after := t[..m], t[m..];
      assert t == f + after;
      assert d + ("." + f) + after == rest;
      if m > MAX_FRACTION { LongFractionWrong(rest, d, f, after, total); } else { UnitWrong(d, f, after, rest, total); }
    }
  }

  lemma NoFractionWrong(rest: string, d: string, t: string, total: int)
    requires Shape(rest, d, "", "." + t) && Digits(t) == 0
    ensures Wrong(rest, total, NoFraction)
  {
  }

  lemma LongFractionWrong(rest: string, d: string, f: string, after: string, total: int)
    requires Shape(rest, d, f, after) && |f| > MAX_FRACTION
    ensures Wrong(rest, total, LongFraction)
  {
  }

  lemma TailWrong(rest: string, total: int)
    requires Digits(rest) > 0 && SplitTail(rest[Digits(rest)..]).Err?
    ensures Wrong(rest, total, SplitTail(rest[Digits(rest)..]).error)
  {
    var n := Digits(rest);
    var d, s := rest[..n], rest[n..];
    assert rest == d + s;
    if s != "" && s[0] == '.' {
      assert s == "." + s[1..];
      hide SplitTail, Wrong;
      PointWrong(rest, d, s[1..], total);
    } else {
      assert d + "" + s == rest;
      hide Wrong, SplitUnit, AllDigits;
      UnitWrong(d, "", s, rest, total);
    }
  }

  lemma PartWrong(rest: string, total: nat)
    requires rest != "" && ReadPart(rest).Err?
    ensures Wrong(rest, total, ReadPart(rest).error)
  {
    if Digits(rest) == 0 {
      assert Split(rest) == Err(NoNumber);
    } else if SplitTail(rest[Digits(rest)..]).Err? {
      TailWrong(rest, total);
    } else {
      var (p, after) := Split(rest).value;
      assert StartsPart(rest, p, after);
    }
  }

  lemma {:induction false} RefusedFrom(rest: string, total: nat) returns (parts: seq<Part>, left: string)
    requires ReadAll(rest, total).Err? && total <= MAX_MILLIS
    ensures AllFit(parts) && rest == WrittenAll(parts) + left && total + Total(parts) <= MAX_MILLIS
    ensures Wrong(left, total + Total(parts), ReadAll(rest, total).error)
    decreases |rest|
  {
    hide ReadPart, Part.Fits, Part.Worth, Part.Written, Part.Valid, AllFit, Total, WrittenAll, Wrong;
    NothingWritten();
    parts, left := [], rest;
    assert rest == "" + rest;
    if ReadPart(rest).Err? {
      PartWrong(rest, total);
    } else {
      var p, after := ReadsOff(rest);
      if total + p.Worth() > MAX_MILLIS {
        SumWrong(rest, p, after, total);
      } else {
        var more;
        Shorter(rest);
        more, left := RefusedFrom(after, total + p.Worth());
        FitCons(p, more);
        parts := [p] + more;
        assert p.Written() + (WrittenAll(more) + left) == (p.Written() + WrittenAll(more)) + left;
      }
    }
  }

  lemma SumWrong(rest: string, p: Part, after: string, total: nat)
    requires p.Valid() && rest == p.Written() + after && total + p.Worth() > MAX_MILLIS
    ensures Wrong(rest, total, TooLong)
  {
    assert StartsPart(rest, p, after);
  }

  lemma Shorter(rest: string)
    ensures match ReadPart(rest) case Err(_) => true case Ok((_, after)) => |after| < |rest|
  {
    hide ReadPart;
  }

  /** No space stands at either end. */
  ghost predicate Tight(text: string) { text != "" && !Text.IsSpace(text[0]) && !Text.IsSpace(text[|text| - 1]) }

  /** A text is refused for what it is, its outer spaces, its sign or its inner spaces exactly when it has them, in this order. */
  lemma OuterExactly(text: string)
    ensures Parse(text) == Err(Empty) <==> text == ""
    ensures Parse(text) == Err(OuterSpace) <==> text != "" && !Tight(text)
    ensures Parse(text) == Err(Sign) <==> Tight(text) && (text[0] == '-' || text[0] == '+')
    ensures Parse(text) == Err(InnerSpace) <==> Tight(text) && text[0] != '-' && text[0] != '+' && (' ' in text || '\t' in text)
  {
    TightIsTrimmed(text);
    Signed(text);
    ReadComplains(text);
    hide Text.Trimmed, Text.IsSpace, ReadAll;
  }

  lemma ReadComplains(text: string)
    ensures ReadAll(text, 0).Err? ==> !Outer(ReadAll(text, 0).error)
  {
    hide Wrong, ReadAll, Total, WrittenAll, AllFit;
    if ReadAll(text, 0).Err? {
      var parts, left := RefusedFrom(text, 0);
      OnlyOf(left, Total(parts), ReadAll(text, 0).error);
    }
  }

  /** Any other complaint is about what stands after the parts that could be read. */
  lemma InnerExactly(text: string)
    requires Parse(text).Err? && !Outer(Parse(text).error)
    ensures exists parts, left :: AllFit(parts) && text == WrittenAll(parts) + left && Stops(parts, left, Parse(text).error)
  {
    hide Text.Trimmed, Text.IsSpace, Wrong, Stops, AllFit, WrittenAll, Total, ReadAll;
    if ReadAll(text, 0).Err? {
      var parts, left := RefusedFrom(text, 0);
      OnlyOf(left, Total(parts), ReadAll(text, 0).error);
      StopsAt(parts, left, ReadAll(text, 0).error);
    } else {
      var parts := ReadsFrom(text, 0);
      assert WrittenAll(parts) + "" == WrittenAll(parts);
      StopsAtNothing(parts);
    }
  }

  lemma Signed(text: string)
    ensures "-" <= text <==> text != "" && text[0] == '-'
    ensures "+" <= text <==> text != "" && text[0] == '+'
  {
  }

  predicate Outer(e: Complaint) { e.Empty? || e.OuterSpace? || e.Sign? || e.InnerSpace? }

  lemma StopsAt(parts: seq<Part>, left: string, e: Complaint)
    requires AllFit(parts) && e != Zero && Wrong(left, Total(parts), e)
    ensures Stops(parts, left, e)
  {
  }

  lemma StopsAtNothing(parts: seq<Part>)
    requires AllFit(parts) && Total(parts) == 0
    ensures Stops(parts, "", Zero)
  {
  }

  ghost predicate Stops(parts: seq<Part>, left: string, e: Complaint)
    requires AllFit(parts)
  {
    if e == Zero then left == "" && Total(parts) == 0 else Wrong(left, Total(parts), e)
  }

  lemma OnlyOf(rest: string, total: int, e: Complaint)
    requires Wrong(rest, total, e)
    ensures !Outer(e) && !e.Zero?
  {
  }

  lemma TightIsTrimmed(text: string)
    ensures Text.Trimmed(text) == text <==> text == "" || Tight(text)
  {
  }

  // ----- writing one -----

  const UNITS := [H, M, S, Ms]

  /** How many of a unit fit. */
  function Count(millis: nat, unit: Unit): (n: nat) {
    match unit case Ms => millis case S => millis / 1000 case M => millis / 60_000 case H => millis / 3_600_000
  }

  function Left(millis: nat, unit: Unit): (n: nat) {
    match unit case Ms => 0 case S => millis % 1000 case M => millis % 60_000 case H => millis % 3_600_000
  }

  lemma CountIs(millis: nat, unit: Unit)
    ensures Count(millis, unit) == millis / unit.Millis()
    ensures Left(millis, unit) == millis - millis / unit.Millis() * unit.Millis()
    ensures Count(millis, unit) == 0 ==> Left(millis, unit) == millis
  {
  }

  /** The parts a number of milliseconds is written as, from the i-th unit on. */
  function PartsOf(millis: nat, i: nat): seq<Part>
    requires i <= |UNITS|
    decreases |UNITS| - i
  {
    if i == |UNITS| then []
    else
      var count := Count(millis, UNITS[i]);
      (if count > 0 then [Part(Decimal(count), "", UNITS[i])] else []) + PartsOf(Left(millis, UNITS[i]), i + 1)
  }

  function Format(d: int): string {
    var millis := Quotient(d, NANOS);
    if millis <= 0 then "0ms" else WrittenAll(PartsOf(millis, 0))
  }

  method FormatDuration(d: int) returns (s: string)
    ensures s == Format(d)
  {
    hide WrittenAll, PartsOf, Decimal, Count, Left, Unit.Suffix, Unit.Millis, Value, Quotient;
    var millis := Quotient(d, NANOS);
    if millis <= 0 { return "0ms"; }
    s := "";
    ghost var whole := WrittenAll(PartsOf(millis, 0));
    assert "" + whole == whole;
    for i := 0 to |UNITS|
      invariant millis >= 0 && s + WrittenAll(PartsOf(millis, i)) == whole
    {
      PartsStep(millis, i, s);
      var unit := UNITS[i];
      var count := millis / unit.Millis();
      CountIs(millis, unit);
      if count > 0 {
        s := s + Decimal(count) + unit.Suffix();
        millis := millis - count * unit.Millis();
      }
    }
    NoParts(millis, s);
  }

  lemma NoParts(millis: nat, s: string)
    ensures s + WrittenAll(PartsOf(millis, |UNITS|)) == s
  {
  }

  lemma PartsStep(millis: nat, i: nat, s: string)
    requires i < |UNITS|
    ensures var count := Count(millis, UNITS[i]);
      s + WrittenAll(PartsOf(millis, i))
      == (if count > 0 then s + Decimal(count) + UNITS[i].Suffix() else s) + WrittenAll(PartsOf(Left(millis, UNITS[i]), i + 1))
  {
    hide Decimal, Count, Left, Unit.Suffix;
    var count := Count(millis, UNITS[i]);
    var rest := PartsOf(Left(millis, UNITS[i]), i + 1);
    PartsUnfold(millis, i);
    hide PartsOf;
    if count > 0 {
      var part := Part(Decimal(count), "", UNITS[i]);
      assert ([part] + rest)[1..] == rest;
      assert part.Written() == Decimal(count) + UNITS[i].Suffix();
    } else {
      assert [] + rest == rest;
    }
  }

  lemma PartsUnfold(millis: nat, i: nat)
    requires i < |UNITS|
    ensures var unit := UNITS[i]; var rest := PartsOf(Left(millis, unit), i + 1);
      PartsOf(millis, i) == if Count(millis, unit) > 0 then [Part(Decimal(Count(millis, unit)), "", unit)] + rest else rest
  {
    hide Decimal, Count, Left;
    var rest := PartsOf(Left(millis, UNITS[i]), i + 1);
    assert [] + rest == rest;
  }

  lemma {:induction false} PartsAddUp(millis: nat, i: nat)
    requires i <= |UNITS| && millis <= MAX_MILLIS && (i == |UNITS| ==> millis == 0)
    ensures AllFit(PartsOf(millis, i)) && Total(PartsOf(millis, i)) == millis
    decreases |UNITS| - i
  {
    NothingWritten();
    if i == |UNITS| {
      assert PartsOf(millis, i) == [];
      hide *;
    } else {
      var unit := UNITS[i];
      var left := Left(millis, unit);
      LeftIsLess(millis, i);
      PartsUnfold(millis, i);
      OnePart(millis, unit);
      hide AllFit, Total, Decimal, Unit.Millis, Count, Left, PartsOf, Part.Fits, Part.Valid, Part.Worth;
      PartsAddUp(left, i + 1);
      if Count(millis, unit) > 0 { FitCons(Part(Decimal(Count(millis, unit)), "", unit), PartsOf(left, i + 1)); }
    }
  }

  lemma LeftIsLess(millis: nat, i: nat)
    requires i < |UNITS|
    ensures Left(millis, UNITS[i]) <= millis && (i + 1 == |UNITS| ==> Left(millis, UNITS[i]) == 0)
    ensures Count(millis, UNITS[i]) == 0 ==> Left(millis, UNITS[i]) == millis
  {
  }

  lemma OnePart(millis: nat, unit: Unit)
    requires millis <= MAX_MILLIS
    ensures var count := Count(millis, unit); var p := Part(Decimal(count), "", unit);
      p.Valid() && p.Fits() && p.Worth() == millis - Left(millis, unit)
  {
    var none: string := "";
    var count := Count(millis, unit);
    assert Decimal(count) + none == Decimal(count);
    assert Pow10(0) == 1;
    CountIs(millis, unit);
    assert count <= count * unit.Millis() == millis - Left(millis, unit);
  }

  /** What is written parses back to the whole milliseconds of it, and is refused when there are none. */
  lemma FormatParsesBack(d: int)
    requires IsInt64(d)
    ensures Parse(Format(d)) == if d < NANOS then Err(Zero) else Ok(d - d % NANOS)
  {
    FormatIs(d);
    hide Parse, Format, AllFit, Total, WrittenAll, PartsOf;
    if d < NANOS {
      ZeroMillis();
    } else {
      NothingWritten();
      PartsAddUp(d / NANOS, 0);
      ParsesAsWritten(PartsOf(d / NANOS, 0));
    }
  }

  /** A number with its unit, or nothing for none. */
  function Shown(n: nat, unit: string): string { if n == 0 then "" else Decimal(n) + unit }

  /** What is written are the hours, the minutes below an hour, the seconds below a minute and the rest, without the zeros. */
  lemma FormatExactly(d: int, h: nat, m: nat, s: nat, ms: nat)
    requires m < 60 && s < 60 && ms < 1000
    requires d >= 1_000_000 && d / 1_000_000 == ((h * 60 + m) * 60 + s) * 1000 + ms
    ensures Format(d) == Shown(h, "h") + Shown(m, "m") + Shown(s, "s") + Shown(ms, "ms")
  {
    FormatIs(d);
    var a: nat, b: nat, c: nat := d / NANOS, (m * 60 + s) * 1000 + ms, s * 1000 + ms;
    Places(a, h, m, s, ms);
    hide *;
    ShownAll(a, b, c, ms, h, m, s);
  }

  lemma ShownAll(a: nat, b: nat, c: nat, e: nat, h: nat, m: nat, s: nat)
    requires Count(a, UNITS[0]) == h && Left(a, UNITS[0]) == b && Count(b, UNITS[1]) == m && Left(b, UNITS[1]) == c
    requires Count(c, UNITS[2]) == s && Left(c, UNITS[2]) == e && Count(e, UNITS[3]) == e && Left(e, UNITS[3]) == 0
    ensures WrittenAll(PartsOf(a, 0)) == Shown(h, "h") + Shown(m, "m") + Shown(s, "s") + Shown(e, "ms")
  {
    hide Shown, WrittenAll, PartsOf, Count, Left;
    var t1 := Shown(h, "h");
    var t2 := t1 + Shown(m, "m");
    var t3 := t2 + Shown(s, "s");
    ShownStep(a, 0, "", "h");
    ShownStep(b, 1, t1, "m");
    ShownStep(c, 2, t2, "s");
    ShownStep(e, 3, t3, "ms");
    NoParts(0, t3 + Shown(e, "ms"));
    assert "" + WrittenAll(PartsOf(a, 0)) == WrittenAll(PartsOf(a, 0)) && "" + t1 == t1;
  }

  lemma ShownStep(millis: nat, i: nat, s: string, unit: string)
    requires i < 4 && unit == ["h", "m", "s", "ms"][i]
    ensures s + WrittenAll(PartsOf(millis, i)) == (s + Shown(Count(millis, UNITS[i]), unit)) + WrittenAll(PartsOf(Left(millis, UNITS[i]), i + 1))
  {
    hide Decimal, Count, Left, WrittenAll, PartsOf;
    PartsStep(millis, i, s);
    var none: string := "";
    assert s + none == s;
    assert UNITS[i].Suffix() == unit;
    assert (s + Decimal(Count(millis, UNITS[i]))) + unit == s + (Decimal(Count(millis, UNITS[i])) + unit);
  }

  lemma Places(a: nat, h: nat, m: nat, s: nat, ms: nat)
    requires m < 60 && s < 60 && ms < 1000 && a == ((h * 60 + m) * 60 + s) * 1000 + ms
    ensures Count(a, UNITS[0]) == h && Left(a, UNITS[0]) == (m * 60 + s) * 1000 + ms
    ensures Count((m * 60 + s) * 1000 + ms, UNITS[1]) == m && Left((m * 60 + s) * 1000 + ms, UNITS[1]) == s * 1000 + ms
    ensures Count(s * 1000 + ms, UNITS[2]) == s && Left(s * 1000 + ms, UNITS[2]) == ms
    ensures Count(ms, UNITS[3]) == ms && Left(ms, UNITS[3]) == 0
  {
  }

  lemma FormatIs(d: int)
    ensures Format(d) == if d < NANOS then "0ms" else WrittenAll(PartsOf(d / NANOS, 0))
  {
    hide WrittenAll, PartsOf;
  }

  lemma ZeroMillis()
    ensures Parse("0ms") == Err(Zero)
  {
    var p := Part("0", "", Ms);
    assert p.digits + p.fraction == "0" && Value("0") == 0 && Pow10(0) == 1;
    var none: string := "";
    assert "0ms" == p.Written() + none == WrittenAll([p]);
    assert [p][1..] == [];
    assert Total([p]) == 0;
    ParsesAsWritten([p]);
  }

  lemma ParsesOne(p: Part)
    requires p.Valid() && p.Fits() && p.Worth() > 0
    ensures Parse(p.Written()) == Ok(p.Worth() * NANOS)
  {
    hide Parse, AllFit, Total, WrittenAll, Part.Written, Part.Number, Pow10;
    NothingWritten();
    FitCons(p, []);
    assert [p] + [] == [p] && p.Written() + "" == p.Written();
    ParsesAsWritten([p]);
  }

  lemma RefusesOne(p: Part)
    requires p.Valid() && p.Number() > MAX_MILLIS
    ensures Parse(p.Written()) == Err(TooLong)
  {
    hide Split, ReadPart, ReadAll, Part.Number, Part.Scaled, Part.Written, Text.Trimmed, Text.IsSpace;
    var text := p.Written();
    forall i | 0 <= i < |text| ensures Plain(text[i]) { PartIsPlain(p, i); }
    PlainIsTrimmed(text);
    ReadsTooLong(p);
  }

  lemma ReadsTooLong(p: Part)
    requires p.Valid() && p.Number() > MAX_MILLIS
    ensures p.Written() != "" && Digit(p.Written()[0]) && ReadAll(p.Written(), 0) == Err(TooLong)
  {
    hide Split, Part.Number, Value;
    var none: string := "";
    assert p.Written() + none == p.Written();
    SplitsAsWritten(p, none);
    assert p.Written()[0] == p.digits[0];
    assert ReadPart(p.Written()) == Err(TooLong);
  }

  /** Zeros after the point count against the range: one duration, read in one spelling and refused in another. */
  lemma TrailingZerosCost()
    ensures Parse("10000000s") == Ok(10_000_000_000 * NANOS) && Parse("10000000.000000s") == Err(TooLong)
  {
    hide Parse, Value;
    Tens();
    var none: string := "";
    var p, q := Part("10000000", "", S), Part("10000000", "000000", S);
    assert p.Number() == 10_000_000 by { assert p.digits + none == p.digits; }
    assert p.Fits() && p.Worth() == 10_000_000_000 by { assert Pow10(0) == 1; }
    assert q.Number() == 10_000_000_000_000;
    assert p.Written() == "10000000s" && q.Written() == "10000000.000000s";
    ParsesOne(p);
    RefusesOne(q);
  }

  /** One of each unit, in nanoseconds. */
  lemma OneOfEach()
    ensures Parse("1ms") == Ok(1_000_000) && Parse("1s") == Ok(1_000_000_000)
    ensures Parse("1m") == Ok(60_000_000_000) && Parse("1h") == Ok(3_600_000_000_000)
  {
    hide Parse, Value;
    OneUnit("1ms", Ms);
    OneUnit("1s", S);
    OneUnit("1m", M);
    OneUnit("1h", H);
  }

  lemma OneUnit(text: string, unit: Unit)
    requires text == "1" + unit.Suffix()
    ensures Parse(text) == Ok(unit.Millis() * NANOS)
  {
    hide Parse;
    var p := Part("1", "", unit);
    var none: string := "";
    assert p.digits + none == p.digits;
    assert p.digits[..0] == none;
    assert Pow10(0) == 1;
    assert p.Number() == 1;
    assert p.Written() == text;
    ParsesOne(p);
  }

  function Zeros(n: nat): string { if n == 0 then "" else Zeros(n - 1) + "0" }

  lemma {:induction false} ValueOfZeros(s: string, n: nat)
    requires AllDigits(s)
    ensures AllDigits(s + Zeros(n)) && Value(s + Zeros(n)) == Value(s) * Pow10(n)
    decreases n
  {
    if n == 0 {
      var none: string := "";
      assert s + none == s;
    } else {
      ValueOfZeros(s, n - 1);
      var t := s + Zeros(n - 1);
      assert s + Zeros(n) == t + "0";
      OneZero(t);
      TenTimes(Value(s), n);
      hide *;
    }
  }

  lemma OneZero(t: string)
    requires AllDigits(t)
    ensures AllDigits(t + "0") && Value(t + "0") == Value(t) * 10
  {
    assert (t + "0")[..|t|] == t;
  }

  lemma TenTimes(v: nat, n: nat)
    requires n > 0
    ensures v * Pow10(n) == v * Pow10(n - 1) * 10
  {
  }

  lemma Tens()
    ensures AllDigits("10000000") && AllDigits("000000") && AllDigits("10000000" + "000000")
    ensures Value("10000000") == 10_000_000 && Value("10000000" + "000000") == 10_000_000_000_000
  {
    ValueOfZeros("1", 7);
    assert "1" + Zeros(7) == "10000000";
    ValueOfZeros("10000000", 6);
    assert Zeros(6) == "000000";
    assert Pow10(7) == 10_000_000 && Pow10(6) == 1_000_000;
    assert Value("1") == 1;
  }
}
