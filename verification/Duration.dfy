/** ISO 8601:2004 section 4.4.3.2 durations: the scanner for provider values and the printer. */
module Duration {
  import opened Wrappers

  /** The largest value of the source's 64-bit integer. */
  const MAX_INT: int := 0x7FFF_FFFF_FFFF_FFFF

  // ---------------------------------------------------------------- decimal numbers

  predicate IsDigit(c: char) { '0' <= c <= '9' }

  predicate AllDigits(s: string) { forall i :: 0 <= i < |s| ==> IsDigit(s[i]) }

  function DigitValue(c: char): (v: nat)
    requires IsDigit(c)
    ensures v < 10
  {
    c as int - '0' as int
  }

  /** The number a digit string denotes. */
  function NumberOf(s: string): nat
    requires AllDigits(s)
  {
    if s == "" then 0 else 10 * NumberOf(s[..|s| - 1]) + DigitValue(s[|s| - 1])
  }

  function Digit(n: nat): (c: char)
    requires n < 10
    ensures IsDigit(c) && DigitValue(c) == n
  {
    '0' + n as char
  }

  /** The canonical decimal digits of a number. */
  function Decimal(n: nat): (s: string)
    ensures s != "" && AllDigits(s)
  {
    if n < 10 then [Digit(n)] else Decimal(n / 10) + [Digit(n % 10)]
  }

  lemma {:induction false} NumberOfDecimal(n: nat)
    ensures NumberOf(Decimal(n)) == n
  {
    if n >= 10 {
      NumberOfDecimal(n / 10);
      assert Decimal(n)[..|Decimal(n)| - 1] == Decimal(n / 10);
    } else {
      assert NumberOf([Digit(n)][..0]) == 0;
    }
  }

  /** A nonempty digit string without a leading zero. */
  predicate Plain(s: string)
  {
    s != "" && AllDigits(s) && (|s| > 1 ==> s[0] != '0')
  }

  lemma {:induction false} DecimalIsPlain(n: nat)
    ensures Plain(Decimal(n)) && (n > 0 ==> Decimal(n)[0] != '0')
  {
    if n >= 10 { DecimalIsPlain(n / 10); }
  }

  lemma {:induction false} PlainIsDecimal(s: string)
    requires Plain(s)
    ensures s == Decimal(NumberOf(s))
    decreases |s|
  {
    var front := s[..|s| - 1];
    assert s == front + [s[|s| - 1]];
    if front == "" {
      assert NumberOf(front) == 0;
    } else {
      PlainIsDecimal(front);
    }
  }

  /** A number is printed as the one digit string without a leading zero that denotes it. */
  lemma PlainIff(s: string, n: nat)
    ensures Plain(s) && NumberOf(s) == n <==> s == Decimal(n)
  {
    NumberOfDecimal(n);
    DecimalIsPlain(n);
    if Plain(s) { PlainIsDecimal(s); }
  }

  /** strconv.Atoi on a digit string: an error when the number exceeds the integer range. */
  function Atoi(s: string): Result<nat>
    requires AllDigits(s)
  {
    if NumberOf(s) <= MAX_INT then Success(NumberOf(s)) else Failure
  }

  // ---------------------------------------------------------------- the grammar

  /** The digit strings of a duration, None where the component is absent. */
  datatype Parts = Parts(d: Option<string>, h: Option<string>, m: Option<string>, s: Option<string>)
  {
    predicate HasTime() { h.Some? || m.Some? || s.Some? }
  }

  predicate IsNumber(digits: Option<string>)
  {
    digits.Some? ==> digits.value != "" && AllDigits(digits.value)
  }

  /** At least one component, each a nonempty digit string. */
  predicate WellFormed(p: Parts)
  {
    && IsNumber(p.d) && IsNumber(p.h) && IsNumber(p.m) && IsNumber(p.s)
    && (p.d.Some? || p.HasTime())
  }

  function ComponentText(digits: Option<string>, unit: char): string
  {
    if digits.None? then "" else digits.value + [unit]
  }

  function TimeText(p: Parts): string
  {
    ComponentText(p.h, 'H') + ComponentText(p.m, 'M') + ComponentText(p.s, 'S')
  }

  /** The components behind the P, with the time mark if inTime. */
  function Rendered(p: Parts, inTime: bool): string
  {
    ComponentText(p.d, 'D') + if inTime then "T" + TimeText(p) else ""
  }

  /** P[nD][T[nH][nM][nS]], the T present exactly when a time component is. */
  function Text(p: Parts): string
  {
    "P" + Rendered(p, p.HasTime())
  }

  /** An amount of days (unit 1), hours (2), minutes (3) or seconds (4), in seconds. */
  function Scaled(amount: nat, unit: nat): nat
  {
    match unit
    case 1 => 86400 * amount
    case 2 => 3600 * amount
    case 3 => 60 * amount
    case _ => amount
  }

  function ComponentSeconds(digits: Option<string>, unit: nat): nat
    requires IsNumber(digits)
  {
    if digits.None? then 0 else Scaled(NumberOf(digits.value), unit)
  }

  function Total(p: Parts): nat
    requires IsNumber(p.d) && IsNumber(p.h) && IsNumber(p.m) && IsNumber(p.s)
  {
    ComponentSeconds(p.d, 1) + ComponentSeconds(p.h, 2) + ComponentSeconds(p.m, 3) + ComponentSeconds(p.s, 4)
  }

  /** value is a duration of exactly seconds that fits the integer range. */
  ghost predicate Denotes(value: string, seconds: int)
  {
    exists p :: WellFormed(p) && Text(p) == value && Total(p) == seconds <= MAX_INT
  }

  // ---------------------------------------------------------------- the scanner

  /** The loop variables of the scanner. */
  datatype Scanner = Scanner(number: string, total: nat, inTime: bool, lastUnit: nat)
  {
    predicate Valid() { AllDigits(number) && total <= MAX_INT && lastUnit <= 4 }
  }

  const START := Scanner("", 0, false, 0)

  function UnitOf(c: char, inTime: bool): nat
  {
    match c
    case 'D' => if inTime then 0 else 1
    case 'H' => if inTime then 2 else 0
    case 'M' => if inTime then 3 else 0
    case 'S' => if inTime then 4 else 0
    case _ => 0
  }

  function MultiplierOf(unit: nat): (multiplier: nat)
    ensures 1 <= unit <= 4 ==> multiplier > 0
  {
    match unit
    case 1 => 86400
    case 2 => 3600
    case 3 => 60
    case 4 => 1
    case _ => 0
  }

  /** One character. */
  function Step(st: Scanner, c: char): (r: Result<Scanner>)
    requires st.Valid()
    ensures r.Success? ==> r.value.Valid()
  {
    if c == 'T' && !st.inTime && st.number == "" then Success(st.(inTime := true))
    else if IsDigit(c) then Success(st.(number := st.number + [c]))
    else if st.number == "" || Atoi(st.number).Failure? then Failure
    else
      var unit := UnitOf(c, st.inTime);
      var amount := NumberOf(st.number);
      if unit <= st.lastUnit || amount > (MAX_INT - st.total) / MultiplierOf(unit) then Failure
      else
        GuardIsExact(amount, st.total, unit);
        Success(st.(number := "", total := st.total + Scaled(amount, unit), lastUnit := unit))
  }

  /** The overflow guard fails exactly when the sum would leave the integer range. */
  lemma GuardIsExact(amount: nat, total: nat, unit: nat)
    requires total <= MAX_INT && 1 <= unit <= 4
    ensures amount > (MAX_INT - total) / MultiplierOf(unit) <==> total + Scaled(amount, unit) > MAX_INT
  {
    match unit
    case 1 =>
    case 2 =>
    case 3 =>
    case 4 =>
  }

  /** All characters of s, left to right. */
  function Scan(s: string): (r: Result<Scanner>)
    ensures r.Success? ==> r.value.Valid()
  {
    if s == "" then Success(START)
    else
      var before := Scan(s[..|s| - 1]);
      if before.Failure? then Failure else Step(before.value, s[|s| - 1])
  }

  lemma ScanSnoc(s: string, c: char)
    ensures Scan(s + [c]) == if Scan(s).Failure? then Failure else Step(Scan(s).value, c)
  {
    assert (s + [c])[..|s|] == s;
  }

  /** The checks after the last character. */
  function Verdict(scanned: Result<Scanner>, last: char): Result<nat>
  {
    if scanned.Failure? || scanned.value.number != "" || scanned.value.lastUnit == 0 || last == 'T' then Failure
    else Success(scanned.value.total)
  }

  function Parse(value: string): Result<nat>
  {
    if value == "P0D" then Success(0)
    else if value == "" || value[0] != 'P' then Failure
    else Verdict(Scan(value[1..]), value[|value| - 1])
  }

  lemma {:induction false} FailureIsFinal(s: string, i: nat)
    requires i <= |s| && Scan(s[..i]).Failure?
    ensures Scan(s).Failure?
    decreases |s| - i
  {
    if i == |s| {
      assert s[..i] == s;
    } else {
      assert s[..i + 1][..i] == s[..i];
      FailureIsFinal(s, i + 1);
    }
  }

  lemma StepAtDigit(st: Scanner, c: char)
    requires st.Valid()
    ensures c == 'T' && !st.inTime && st.number == "" ==> Step(st, c) == Success(st.(inTime := true))
    ensures IsDigit(c) ==> Step(st, c) == Success(st.(number := st.number + [c])) && AllDigits(st.number + [c])
  {
  }

  /** What the loop body does with a character that is neither the time mark nor a digit. */
  lemma StepAtUnit(st: Scanner, c: char)
    requires st.Valid() && !IsDigit(c) && (c != 'T' || st.inTime || st.number != "")
    ensures st.number == "" || Atoi(st.number).Failure? || UnitOf(c, st.inTime) <= st.lastUnit ==> Step(st, c).Failure?
    ensures st.number != "" && Atoi(st.number).Success? && UnitOf(c, st.inTime) > st.lastUnit ==>
      var unit, amount := UnitOf(c, st.inTime), Atoi(st.number).value;
      Step(st, c) == if amount > (MAX_INT - st.total) / MultiplierOf(unit) then Failure
      else Success(Scanner("", st.total + amount * MultiplierOf(unit), st.inTime, unit))
  {
    if UnitOf(c, st.inTime) > st.lastUnit {
      match UnitOf(c, st.inTime)
      case 1 =>
      case 2 =>
      case 3 =>
      case 4 =>
    }
  }

  /** The scanner's switch over unit letters. */
  method UnitAndMultiplier(character: char, inTime: bool) returns (unit: nat, multiplier: nat)
    ensures unit == UnitOf(character, inTime) && multiplier == MultiplierOf(unit)
  {
    unit, multiplier := 0, 0;
    match character {
      case 'D' => if !inTime { unit, multiplier := 1, 24 * 60 * 60; }
      case 'H' => if inTime { unit, multiplier := 2, 60 * 60; }
      case 'M' => if inTime { unit, multiplier := 3, 60; }
      case 'S' => if inTime { unit, multiplier := 4, 1; }
      case _ =>
    }
  }

  /** The rest of the loop body: a unit letter, or an invalid character, behind the digits. */
  method ReadUnit(number: string, totalSeconds: nat, inTime: bool, lastUnit: nat, character: char)
    returns (r: Result<Scanner>)
    requires Scanner(number, totalSeconds, inTime, lastUnit).Valid()
    requires !IsDigit(character) && (character != 'T' || inTime || number != "")
    ensures r == Step(Scanner(number, totalSeconds, inTime, lastUnit), character)
  {
    StepAtUnit(Scanner(number, totalSeconds, inTime, lastUnit), character);
    hide Step, UnitOf, MultiplierOf;
    if number == "" {
      return Failure;
    }
    var amount := Atoi(number);
    if amount.Failure? {
      return Failure;
    }
    var unit, multiplier := UnitAndMultiplier(character, inTime);
    if unit <= lastUnit {
      return Failure;
    }
    if amount.value > (MAX_INT - totalSeconds) / multiplier {
      return Failure;
    }
    return Success(Scanner("", totalSeconds + amount.value * multiplier, inTime, unit));
  }

  /** st is the scanner's state behind the first i characters. */
  ghost predicate Scanned(duration: string, i: nat, st: Scanner)
    requires i <= |duration|
  {
    st.Valid() && Scan(duration[..i]) == Success(st)
  }

  lemma ScannedNext(duration: string, i: nat, st: Scanner)
    requires i < |duration| && Scanned(duration, i, st)
    ensures Step(st, duration[i]).Success? ==> Scanned(duration, i + 1, Step(st, duration[i]).value)
    ensures Step(st, duration[i]).Failure? ==> Scan(duration).Failure?
  {
    assert duration[..i + 1] == duration[..i] + [duration[i]];
    ScanSnoc(duration[..i], duration[i]);
    hide Step, Scan;
    if Step(st, duration[i]).Failure? { FailureIsFinal(duration, i + 1); }
  }

  lemma ScannedAll(duration: string, st: Scanner)
    requires Scanned(duration, |duration|, st)
    ensures Scan(duration) == Success(st)
  {
    assert duration[..|duration|] == duration;
  }

  lemma StartIsScanned(duration: string)
    ensures Scanned(duration, 0, START)
  {
    assert duration[..0] == "";
  }

  /** The scanner as the source runs it: accepts exactly the grammar and returns the exact total. */
  method YoutubeDurationSeconds(value: string) returns (r: Result<nat>)
    ensures r == Parse(value)
    ensures forall seconds :: Denotes(value, seconds) <==> r == Success(seconds)
  {
    ParseExact(value);
    hide Scan, Scanned, Denotes, NumberOf, AllDigits, Step;
    if value == "P0D" {
      return Success(0);
    }
    if value == "" || value[0] != 'P' {
      return Failure;
    }
    var duration := value[1..];
    var st, i := START, 0;
    StartIsScanned(duration);
    while i < |duration|
      invariant 0 <= i <= |duration| && st.Valid() && Scanned(duration, i, st)
    {
      var character := duration[i];
      ScannedNext(duration, i, st);
      StepAtDigit(st, character);
      i := i + 1;
      if character == 'T' && !st.inTime && st.number == "" {
        st := st.(inTime := true);
        continue;
      }
      if IsDigit(character) {
        st := st.(number := st.number + [character]);
        continue;
      }
      var next := ReadUnit(st.number, st.total, st.inTime, st.lastUnit, character);
      if next.Failure? {
        return Failure;
      }
      st := next.value;
    }
    ScannedAll(duration, st);
    if st.number != "" || st.lastUnit == 0 || value[|value| - 1] == 'T' {
      return Failure;
    }
    return Success(st.total);
  }

  // ---------------------------------------------------------------- soundness

  function HighestUnit(p: Parts): nat
  {
    if p.s.Some? then 4 else if p.m.Some? then 3 else if p.h.Some? then 2 else if p.d.Some? then 1 else 0
  }

  /** p are the components behind the scanner's state after reading s. */
  ghost predicate Explains(p: Parts, s: string, st: Scanner)
  {
    && IsNumber(p.d) && IsNumber(p.h) && IsNumber(p.m) && IsNumber(p.s)
    && (!st.inTime ==> !p.HasTime())
    && s == Rendered(p, st.inTime) + st.number
    && st.lastUnit == HighestUnit(p) && st.total == Total(p)
  }

  function WithUnit(p: Parts, unit: nat, digits: string): Parts
  {
    match unit
    case 1 => p.(d := Some(digits))
    case 2 => p.(h := Some(digits))
    case 3 => p.(m := Some(digits))
    case _ => p.(s := Some(digits))
  }

  lemma RenderedWithUnit(p: Parts, inTime: bool, c: char, digits: string)
    requires UnitOf(c, inTime) > HighestUnit(p)
    requires !inTime ==> !p.HasTime()
    ensures Rendered(WithUnit(p, UnitOf(c, inTime), digits), inTime) == Rendered(p, inTime) + digits + [c]
  {
    var q := WithUnit(p, UnitOf(c, inTime), digits);
    if inTime {
      assert TimeText(q) == TimeText(p) + (digits + [c]);
      assert Rendered(q, inTime) == Rendered(p, inTime) + (digits + [c]);
    }
  }

  lemma TotalWithUnit(p: Parts, unit: nat, digits: string)
    requires IsNumber(p.d) && IsNumber(p.h) && IsNumber(p.m) && IsNumber(p.s)
    requires HighestUnit(p) < unit <= 4 && digits != "" && AllDigits(digits)
    ensures Total(WithUnit(p, unit, digits)) == Total(p) + Scaled(NumberOf(digits), unit)
    ensures HighestUnit(WithUnit(p, unit, digits)) == unit
  {
  }

  lemma UnitSound(p: Parts, s: string, st: Scanner, c: char) returns (q: Parts)
    requires st.Valid() && Explains(p, s, st) && st.number != "" && UnitOf(c, st.inTime) > st.lastUnit
    ensures Explains(q, s + [c], Scanner("", st.total + Scaled(NumberOf(st.number), UnitOf(c, st.inTime)),
                                         st.inTime, UnitOf(c, st.inTime)))
  {
    hide Total, NumberOf, Rendered, Scaled, HighestUnit;
    var unit := UnitOf(c, st.inTime);
    q := WithUnit(p, unit, st.number);
    RenderedWithUnit(p, st.inTime, c, st.number);
    TotalWithUnit(p, unit, st.number);
    assert s + [c] == Rendered(q, st.inTime) + "";
  }

  lemma StepSound(p: Parts, s: string, st: Scanner, c: char) returns (q: Parts)
    requires st.Valid() && Explains(p, s, st) && Step(st, c).Success?
    ensures Explains(q, s + [c], Step(st, c).value)
  {
    if c == 'T' && !st.inTime && st.number == "" {
      q := p;
      assert TimeText(p) == "";
      assert Rendered(p, true) == Rendered(p, false) + "T";
    } else if IsDigit(c) {
      q := p;
      assert s + [c] == Rendered(p, st.inTime) + (st.number + [c]);
    } else {
      hide Total, Rendered, Scaled, HighestUnit;
      q := UnitSound(p, s, st, c);
    }
  }

  lemma {:induction false} ScanSound(s: string) returns (p: Parts)
    requires Scan(s).Success?
    ensures Explains(p, s, Scan(s).value)
  {
    if s == "" {
      p := Parts(None, None, None, None);
    } else {
      var q := ScanSound(s[..|s| - 1]);
      p := StepSound(q, s[..|s| - 1], Scan(s[..|s| - 1]).value, s[|s| - 1]);
      assert s == s[..|s| - 1] + [s[|s| - 1]];
    }
  }

  lemma ParseSound(value: string)
    requires Parse(value).Success?
    ensures Denotes(value, Parse(value).value)
  {
    if value == "P0D" {
      var p := Parts(Some("0"), None, None, None);
      assert NumberOf("0"[..0]) == 0;
      assert WellFormed(p) && Text(p) == value && Total(p) == 0;
    } else {
      var st := Scan(value[1..]).value;
      var p := ScanSound(value[1..]);
      assert value == "P" + value[1..];
      assert value == "P" + Rendered(p, st.inTime);
      assert TimeText(Parts(p.d, None, None, None)) == "";
      assert Text(p) == "P" + Rendered(p, st.inTime);
      assert WellFormed(p) && Text(p) == value && Total(p) == st.total;
    }
  }

  // ---------------------------------------------------------------- completeness

  lemma {:induction false} ScanDigits(s: string, digits: string)
    requires Scan(s).Success? && Scan(s).value.number == "" && AllDigits(digits)
    ensures Scan(s + digits) == Success(Scan(s).value.(number := digits))
  {
    hide Step, Scan;
    if digits == "" {
      assert s + digits == s;
    } else {
      var shorter, last := digits[..|digits| - 1], digits[|digits| - 1];
      ScanDigits(s, shorter);
      assert s + digits == s + shorter + [last] && digits == shorter + [last];
      ScanSnoc(s + shorter, last);
      StepAtDigit(Scan(s + shorter).value, last);
    }
  }

  /** Reading a unit after its digits adds their seconds, if the sum fits. */
  lemma StepUnit(st: Scanner, c: char)
    requires st.Valid() && st.number != "" && !IsDigit(c)
    requires UnitOf(c, st.inTime) > st.lastUnit
    requires st.total + Scaled(NumberOf(st.number), UnitOf(c, st.inTime)) <= MAX_INT
    ensures Step(st, c) ==
            Success(Scanner("", st.total + Scaled(NumberOf(st.number), UnitOf(c, st.inTime)),
                            st.inTime, UnitOf(c, st.inTime)))
  {
    GuardIsExact(NumberOf(st.number), st.total, UnitOf(c, st.inTime));
  }

  /** The scanner's state between two components. */
  ghost predicate At(s: string, total: nat, inTime: bool, lastUnit: nat)
  {
    Scan(s) == Success(Scanner("", total, inTime, lastUnit))
  }

  lemma ScanUnit(s: string, total: nat, inTime: bool, lastUnit: nat, digits: string, c: char)
    requires At(s, total, inTime, lastUnit) && digits != "" && AllDigits(digits) && !IsDigit(c)
    requires UnitOf(c, inTime) > lastUnit && lastUnit <= 4
    requires total + Scaled(NumberOf(digits), UnitOf(c, inTime)) <= MAX_INT
    ensures At(s + digits + [c], total + Scaled(NumberOf(digits), UnitOf(c, inTime)), inTime, UnitOf(c, inTime))
  {
    hide Scan, Step, NumberOf, Scaled, UnitOf;
    ScanDigits(s, digits);
    StepUnit(Scanner(digits, total, inTime, lastUnit), c);
    ScanSnoc(s + digits, c);
  }

  lemma ScanComponent(s: string, total: nat, inTime: bool, lastUnit: nat, digits: Option<string>, c: char)
    requires At(s, total, inTime, lastUnit) && IsNumber(digits) && !IsDigit(c)
    requires UnitOf(c, inTime) > lastUnit
    requires total + ComponentSeconds(digits, UnitOf(c, inTime)) <= MAX_INT
    ensures At(s + ComponentText(digits, c), total + ComponentSeconds(digits, UnitOf(c, inTime)), inTime,
               if digits.Some? then UnitOf(c, inTime) else lastUnit)
  {
    hide At, NumberOf, Scaled, AllDigits;
    if digits.None? {
      assert s + ComponentText(digits, c) == s;
    } else {
      ScanUnit(s, total, inTime, lastUnit, digits.value, c);
      assert s + ComponentText(digits, c) == s + digits.value + [c];
    }
  }

  lemma ScanTime(s: string, total: nat, lastUnit: nat, p: Parts)
    requires At(s, total, true, lastUnit) && lastUnit <= 1
    requires IsNumber(p.h) && IsNumber(p.m) && IsNumber(p.s)
    requires total + ComponentSeconds(p.h, 2) + ComponentSeconds(p.m, 3) + ComponentSeconds(p.s, 4) <= MAX_INT
    ensures At(s + TimeText(p),
               total + ComponentSeconds(p.h, 2) + ComponentSeconds(p.m, 3) + ComponentSeconds(p.s, 4), true,
               if p.s.Some? then 4 else if p.m.Some? then 3 else if p.h.Some? then 2 else lastUnit)
  {
    hide Scan, Step;
    var t3, u3 := s + ComponentText(p.h, 'H'), if p.h.Some? then 2 else lastUnit;
    ScanComponent(s, total, true, lastUnit, p.h, 'H');
    var t4, u4 := t3 + ComponentText(p.m, 'M'), if p.m.Some? then 3 else u3;
    ScanComponent(t3, total + ComponentSeconds(p.h, 2), true, u3, p.m, 'M');
    ScanComponent(t4, total + ComponentSeconds(p.h, 2) + ComponentSeconds(p.m, 3), true, u4, p.s, 'S');
    assert s + TimeText(p) == t4 + ComponentText(p.s, 'S');
  }

  lemma ScanComplete(p: Parts)
    requires WellFormed(p) && Total(p) <= MAX_INT
    ensures At(Rendered(p, p.HasTime()), Total(p), p.HasTime(), HighestUnit(p))
  {
    hide Scan, Step, NumberOf, Scaled, AllDigits, ComponentText;
    var t1, u1 := ComponentText(p.d, 'D'), if p.d.Some? then 1 else 0;
    EmptyScan();
    ScanComponent("", 0, false, 0, p.d, 'D');
    assert "" + t1 == t1;
    if p.HasTime() {
      ScanMark(t1, ComponentSeconds(p.d, 1), u1);
      ScanTime(t1 + "T", ComponentSeconds(p.d, 1), u1, p);
      assert Rendered(p, true) == t1 + "T" + TimeText(p);
    } else {
      assert Rendered(p, false) == t1;
    }
  }

  lemma EmptyScan()
    ensures At("", 0, false, 0)
  {
  }

  lemma ScanMark(s: string, total: nat, lastUnit: nat)
    requires At(s, total, false, lastUnit)
    ensures At(s + "T", total, true, lastUnit)
  {
    ScanSnoc(s, 'T');
  }

  lemma ZeroScan()
    ensures Scan("0D") == Success(Scanner("", 0, false, 1))
  {
    assert "0"[..0] == "" && "0D"[..1] == "0" && NumberOf("") == 0;
    assert Scan("") == Success(START);
    assert "" + ['0'] == "0";
    assert Scan("0") == Step(START, '0') == Success(START.(number := "0"));
    assert NumberOf("0") == 0;
  }

  lemma LastIsUnit(p: Parts)
    requires WellFormed(p)
    ensures Text(p)[|Text(p)| - 1] != 'T'
  {
    if p.HasTime() {
      assert |TimeText(p)| > 0 && TimeText(p)[|TimeText(p)| - 1] in "HMS";
    }
  }

  lemma ParseComplete(p: Parts)
    requires WellFormed(p) && Total(p) <= MAX_INT
    ensures Parse(Text(p)) == Success(Total(p))
  {
    ScanComplete(p);
    var value := Text(p);
    assert value[1..] == Rendered(p, p.HasTime());
    LastIsUnit(p);
    if value == "P0D" {
      ParseSound(value);
      ZeroScan();
    }
  }

  /** The parser accepts a value exactly when it denotes a duration in range, with that total. */
  lemma ParseExact(value: string)
    ensures forall seconds :: Denotes(value, seconds) <==> Parse(value) == Success(seconds)
  {
    forall seconds
      ensures Denotes(value, seconds) <==> Parse(value) == Success(seconds)
    {
      if Denotes(value, seconds) {
        var p :| WellFormed(p) && Text(p) == value && Total(p) == seconds <= MAX_INT;
        ParseComplete(p);
      }
      if Parse(value) == Success(seconds) {
        ParseSound(value);
        var p :| WellFormed(p) && Text(p) == value && Total(p) == Parse(value).value <= MAX_INT;
        assert Total(p) == seconds;
      }
    }
  }

  // ---------------------------------------------------------------- the printer

  /** Go's integer division and remainder, which truncate toward zero. */
  function Quotient(a: int, b: nat): int
    requires b > 0
  {
    if a >= 0 then a / b else -(-a / b)
  }

  function Remainder(a: int, b: nat): int
    requires b > 0
  {
    a - b * Quotient(a, b)
  }

  function Verb(n: int): string { if n >= 0 then Decimal(n) else "-" + Decimal(-n) }

  /** The components the printer shows for a nonnegative number of seconds. */
  function PrintedParts(seconds: nat): (p: Parts)
    ensures WellFormed(p)
  {
    var hours, minutes, rest := seconds / 3600, seconds % 3600 / 60, seconds % 60;
    Parts(None,
          if hours > 0 then Some(Decimal(hours)) else None,
          if minutes > 0 then Some(Decimal(minutes)) else None,
          if rest > 0 || (hours == 0 && minutes == 0) then Some(Decimal(rest)) else None)
  }

  method DurationISO8601(seconds: int) returns (duration: string)
    ensures seconds >= 0 ==> duration == Text(PrintedParts(seconds))
    ensures seconds < 0 ==> duration == "PT" + Verb(-(-seconds % 60)) + "S"
    ensures seconds <= MAX_INT ==> (Parse(duration) == Success(seconds) <==> seconds >= 0)
  {
    hide Parse, Decimal;
    var hours := Quotient(seconds, 60 * 60);
    var minutes := Quotient(Remainder(seconds, 60 * 60), 60);
    var remainingSeconds := Remainder(seconds, 60);
    assert seconds >= 0 ==>
      hours == seconds / 3600 && minutes == seconds % 3600 / 60 && remainingSeconds == seconds % 60;
    duration := "PT";
    if hours > 0 {
      duration := duration + Verb(hours) + "H";
    }
    if minutes > 0 {
      duration := duration + Verb(minutes) + "M";
    }
    if remainingSeconds > 0 || duration == "PT" {
      duration := duration + Verb(remainingSeconds) + "S";
    }
    if seconds >= 0 {
      PrintedText(seconds, hours, minutes, remainingSeconds);
      assert duration == Printed(hours, minutes, remainingSeconds);
      if seconds <= MAX_INT { RoundTrip(seconds); }
    }
  }

  function Printed(hours: nat, minutes: nat, rest: nat): string
  {
    var h := if hours > 0 then "PT" + Decimal(hours) + "H" else "PT";
    var m := if minutes > 0 then h + Decimal(minutes) + "M" else h;
    if rest > 0 || (hours == 0 && minutes == 0) then m + Decimal(rest) + "S" else m
  }

  lemma PrintedText(seconds: nat, hours: nat, minutes: nat, rest: nat)
    requires hours == seconds / 3600 && minutes == seconds % 3600 / 60 && rest == seconds % 60
    ensures Printed(hours, minutes, rest) == Text(PrintedParts(seconds))
  {
    hide Decimal;
    var p := PrintedParts(seconds);
    var h, m, s := ComponentText(p.h, 'H'), ComponentText(p.m, 'M'), ComponentText(p.s, 'S');
    assert Text(p) == "P" + "" + ("T" + (h + m + s));
    assert Printed(hours, minutes, rest) == "PT" + h + m + s;
  }

  lemma PrintedTotal(seconds: nat)
    ensures Total(PrintedParts(seconds)) == seconds
  {
    NumberOfDecimal(seconds / 3600);
    NumberOfDecimal(seconds % 3600 / 60);
    NumberOfDecimal(seconds % 60);
  }

  /** Parsing what the printer shows gives the number of seconds back. */
  lemma RoundTrip(seconds: nat)
    requires seconds <= MAX_INT
    ensures Parse(Text(PrintedParts(seconds))) == Success(seconds)
  {
    PrintedTotal(seconds);
    ParseComplete(PrintedParts(seconds));
  }

  function Number(digits: Option<string>): nat
    requires IsNumber(digits)
  {
    if digits.None? then 0 else NumberOf(digits.value)
  }

  /** No days, fewer than 60 minutes and seconds, no leading zeros, and no zero component but the seconds of an
      otherwise empty duration. */
  predicate Canonical(p: Parts)
  {
    && WellFormed(p) && p.d.None?
    && (p.h.Some? ==> Plain(p.h.value) && Number(p.h) > 0)
    && (p.m.Some? ==> Plain(p.m.value) && 0 < Number(p.m) < 60)
    && (p.s.Some? ==> Plain(p.s.value) && Number(p.s) < 60 && (Number(p.s) == 0 ==> p.h.None? && p.m.None?))
  }

  lemma PrintedIsCanonical(seconds: nat)
    ensures Canonical(PrintedParts(seconds))
  {
    var hours, minutes, rest := seconds / 3600, seconds % 3600 / 60, seconds % 60;
    PlainIff(Decimal(hours), hours);
    PlainIff(Decimal(minutes), minutes);
    PlainIff(Decimal(rest), rest);
    hide Decimal, NumberOf, Plain;
  }

  lemma Divided(h: nat, m: nat, s: nat)
    requires m < 60 && s < 60
    ensures var seconds := 3600 * h + 60 * m + s;
            h == seconds / 3600 && m == seconds % 3600 / 60 && s == seconds % 60
  {
  }

  lemma CanonicalIsPrinted(p: Parts)
    requires Canonical(p)
    ensures p == PrintedParts(Total(p))
  {
    Divided(Number(p.h), Number(p.m), Number(p.s));
    if p.h.Some? { PlainIff(p.h.value, Number(p.h)); }
    if p.m.Some? { PlainIff(p.m.value, Number(p.m)); }
    if p.s.Some? { PlainIff(p.s.value, Number(p.s)); }
    hide Decimal, NumberOf, Plain;
    assert Total(p) == 3600 * Number(p.h) + 60 * Number(p.m) + Number(p.s);
  }

  /** Every nonnegative number of seconds is printed in its one canonical form. */
  lemma CanonicalIff(p: Parts, seconds: nat)
    ensures Canonical(p) && Total(p) == seconds <==> p == PrintedParts(seconds)
  {
    PrintedTotal(seconds);
    PrintedIsCanonical(seconds);
    if Canonical(p) { CanonicalIsPrinted(p); }
    hide Canonical, PrintedParts, Total;
  }
}
