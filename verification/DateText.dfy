/**
 * Dates in result text: `time.ParseInLocation` with the layouts `2006-01-02` and
 * `2006-01-02 15:04:05.999999`, as encodePreparedDateTimeResult uses it.
 */
module DateText {
  import opened Wrappers
  import opened Bytes
  import opened Decimal
  import opened BinaryValues

  const Space: uint8 := 32
  const Comma: uint8 := 44

  /** A number read from the front of a text, and what follows it. */
  datatype Taken = Taken(value: nat, rest: bytes)

  /** Exactly `k` digits. */
  function TakeDigits(s: bytes, k: nat): (r: Option<Taken>)
    ensures r.Some? ==> r.value.value < Pow10(k)
  {
    if |s| >= k && forall i | 0 <= i < k :: IsDigit(s[i]) then
      SixDigits(s[..k]);
      Some(Taken(ValueOf(s[..k]), s[k..]))
    else None
  }

  /** Two digits, or one when no second one follows. */
  function TakeHour(s: bytes): Option<Taken> {
    if TakeDigits(s, 2).Some? then TakeDigits(s, 2) else TakeDigits(s, 1)
  }

  function Skip(r: Option<Taken>, c: uint8): Option<Taken> {
    if r.Some? && r.value.rest != [] && r.value.rest[0] == c then Some(r.value.(rest := r.value.rest[1..])) else None
  }

  function CutSpaces(s: bytes): bytes {
    if s != [] && s[0] == Space then CutSpaces(s[1..]) else s
  }

  predicate Leap(year: nat) { year % 4 == 0 && (year % 100 != 0 || year % 400 == 0) }

  function DaysIn(month: nat, year: nat): nat {
    if month == 2 then if Leap(year) then 29 else 28
    else if month in {4, 6, 9, 11} then 30 else 31
  }

  /** A date of the calendar with a year of four digits. */
  predicate InCalendar(t: Instant) {
    && 0 <= t.year < 10_000 && 1 <= t.month <= 12 && 1 <= t.day <= DaysIn(t.month, t.year)
    && t.hour < 24 && t.minute < 60 && t.second < 60 && t.nanos < 1_000_000_000
  }

  datatype Day = Day(year: nat, month: nat, day: nat, rest: bytes)

  /** The part both layouts begin with; the day is checked against the month at the end. */
  function ReadDay(text: bytes): Option<Day> {
    var year := Skip(TakeDigits(text, 4), Minus);
    if year.None? then None else
    var month := Skip(TakeDigits(year.value.rest, 2), Minus);
    if month.None? || !(1 <= month.value.value <= 12) then None else
    var day := TakeDigits(month.value.rest, 2);
    if day.None? then None else Some(Day(year.value.value, month.value.value, day.value.value, day.value.rest))
  }

  function DigitRun(s: bytes): (n: nat)
    ensures n <= |s| && forall i | 0 <= i < n :: IsDigit(s[i])
  {
    if s != [] && IsDigit(s[0]) then 1 + DigitRun(s[1..]) else 0
  }

  /** Nanoseconds: any number of digits after a point or comma, those past the ninth dropped. */
  function ReadFraction(s: bytes): (r: Taken)
    ensures r.value < 1_000_000_000
  {
    if |s| >= 2 && (s[0] == Dot || s[0] == Comma) && IsDigit(s[1]) then
      var run := DigitRun(s[1..]);
      var kept := if run > 9 then 9 else run;
      SixDigits(s[1..1 + kept]);
      Scaled(ValueOf(s[1..1 + kept]), kept);
      Taken(ValueOf(s[1..1 + kept]) * Pow10(9 - kept), s[1 + run..])
    else Taken(0, s)
  }

  lemma Billion()
    ensures Pow10(1) == 10 && Pow10(2) == 100 && Pow10(3) == 1000 && Pow10(4) == 10_000 && Pow10(9) == 1_000_000_000
  {
    Million();
    assert Pow10(7) == 10_000_000 && Pow10(8) == 100_000_000;
  }

  lemma {:induction false} Scaled(v: nat, k: nat)
    requires k <= 9 && v < Pow10(k)
    ensures v * Pow10(9 - k) < 1_000_000_000
    decreases 9 - k
  {
    if k == 9 {
      Billion();
      assert Pow10(0) == 1;
    } else {
      assert 10 * v < Pow10(k + 1);
      Scaled(10 * v, k + 1);
      TenTimes(v, Pow10(8 - k));
    }
  }

  lemma TenTimes(v: nat, p: nat)
    ensures v * (10 * p) == (10 * v) * p
  {
  }

  function ReadTime(d: Day): Option<Instant> {
    if d.rest != [] && d.rest[0] != Space then None else
    var hour := Skip(TakeHour(CutSpaces(d.rest)), Colon);
    if hour.None? || hour.value.value >= 24 then None else
    var minute := Skip(TakeDigits(hour.value.rest, 2), Colon);
    if minute.None? || minute.value.value >= 60 then None else
    var second := TakeDigits(minute.value.rest, 2);
    if second.None? || second.value.value >= 60 then None else
    var fraction := ReadFraction(second.value.rest);
    if fraction.rest != [] then None
    else Some(Instant(d.year, d.month, d.day, hour.value.value, minute.value.value, second.value.value, fraction.value))
  }

  /** The time a text stands for: the date layout first, then the one with a time. */
  function ParseMoment(text: bytes): (r: Option<Instant>)
    ensures r.Some? ==> InCalendar(r.value) && ValidInstant(r.value)
  {
    var d := ReadDay(text);
    if d.None? || !(1 <= d.value.day <= DaysIn(d.value.month, d.value.year)) then None else
    Billion();
    if d.value.rest == [] then Some(Instant(d.value.year, d.value.month, d.value.day, 0, 0, 0, 0))
    else ReadTime(d.value)
  }

  // ---------------------------------------------------------------- the texts MySQL writes

  function DateOf(t: Instant): bytes
    requires t.year >= 0
  {
    Padded(t.year, 4) + [Minus] + Padded(t.month, 2) + [Minus] + Padded(t.day, 2)
  }

  function FractionOf(t: Instant, fraction: bool): bytes {
    if fraction then [Dot] + Padded(t.nanos / 1000, 6) else []
  }

  function TimeOf(t: Instant, fraction: bool): bytes {
    Padded(t.hour, 2) + [Colon] + Padded(t.minute, 2) + [Colon] + Padded(t.second, 2) + FractionOf(t, fraction)
  }

  lemma TakePadded(n: nat, k: nat, rest: bytes)
    requires k > 0 && n < Pow10(k)
    ensures TakeDigits(Padded(n, k) + rest, k) == Some(Taken(n, rest))
  {
    DigitsLength(n, k);
    var p := Padded(n, k);
    assert |p| == k;
    assert (p + rest)[..k] == p && (p + rest)[k..] == rest;
    assert forall i | 0 <= i < k :: (p + rest)[i] == p[i];
  }

  lemma SkipHead(n: nat, c: uint8, rest: bytes)
    ensures Skip(Some(Taken(n, [c] + rest)), c) == Some(Taken(n, rest))
  {
    assert ([c] + rest)[1..] == rest;
  }

  lemma DayReads(t: Instant, rest: bytes)
    requires InCalendar(t)
    ensures ReadDay(DateOf(t) + rest) == Some(Day(t.year, t.month, t.day, rest))
  {
    hide TakeDigits, Padded, Skip;
    Billion();
    var c := Padded(t.day, 2) + rest;
    var b := Padded(t.month, 2) + ([Minus] + c);
    assert DateOf(t) + rest == Padded(t.year, 4) + ([Minus] + b);
    TakePadded(t.year, 4, [Minus] + b);
    SkipHead(t.year, Minus, b);
    TakePadded(t.month, 2, [Minus] + c);
    SkipHead(t.month, Minus, c);
    TakePadded(t.day, 2, rest);
  }

  lemma {:induction false} RunOfDigits(s: bytes)
    requires forall i | 0 <= i < |s| :: IsDigit(s[i])
    ensures DigitRun(s) == |s|
  {
    if s != [] {
      RunOfDigits(s[1..]);
    }
  }

  lemma FractionReads(t: Instant, fraction: bool)
    requires InCalendar(t) && t.nanos % 1000 == 0 && (!fraction ==> t.nanos == 0)
    ensures ReadFraction(FractionOf(t, fraction)) == Taken(t.nanos, [])
  {
    if fraction {
      hide Padded;
      var p := Padded(t.nanos / 1000, 6);
      SixDigitFraction(t.nanos / 1000);
      var s := [Dot] + p;
      assert s[1..] == p && s[1] == p[0];
      RunOfDigits(p);
      Billion();
      assert s[1..7] == p && s[7..] == [];
    }
  }

  lemma TimeReads(t: Instant, fraction: bool, d: Day)
    requires InCalendar(t) && t.nanos % 1000 == 0 && (!fraction ==> t.nanos == 0)
    requires d == Day(t.year, t.month, t.day, [Space] + TimeOf(t, fraction))
    ensures ReadTime(d) == Some(t)
  {
    hide TakeDigits, Padded, Skip, ReadFraction, FractionOf, CutSpaces;
    Billion();
    var f := FractionOf(t, fraction);
    var s := Padded(t.second, 2) + f;
    var m := Padded(t.minute, 2) + ([Colon] + s);
    assert TimeOf(t, fraction) == Padded(t.hour, 2) + ([Colon] + m);
    OneSpace(t, fraction);
    TakePadded(t.hour, 2, [Colon] + m);
    SkipHead(t.hour, Colon, m);
    TakePadded(t.minute, 2, [Colon] + s);
    SkipHead(t.minute, Colon, s);
    TakePadded(t.second, 2, f);
    FractionReads(t, fraction);
  }

  lemma OneSpace(t: Instant, fraction: bool)
    ensures CutSpaces([Space] + TimeOf(t, fraction)) == TimeOf(t, fraction)
  {
    hide Padded;
    var s := TimeOf(t, fraction);
    assert s[0] == Padded(t.hour, 2)[0];
    assert ([Space] + s)[1..] == s;
  }

  /** The text of every date, and of every date and time at microsecond precision, stands for that date and time. */
  lemma MomentTextInverts(t: Instant, fraction: bool)
    requires InCalendar(t)
    ensures ParseMoment(DateOf(t)) == Some(Instant(t.year, t.month, t.day, 0, 0, 0, 0))
    ensures t.nanos % 1000 == 0 && (!fraction ==> t.nanos == 0) ==>
              ParseMoment(DateOf(t) + ([Space] + TimeOf(t, fraction))) == Some(t)
  {
    hide ReadDay, ReadTime, DateOf, TimeOf, DaysIn;
    DayReads(t, []);
    assert DateOf(t) + [] == DateOf(t);
    DayReads(t, [Space] + TimeOf(t, fraction));
    if t.nanos % 1000 == 0 && (!fraction ==> t.nanos == 0) {
      TimeReads(t, fraction, Day(t.year, t.month, t.day, [Space] + TimeOf(t, fraction)));
    }
  }
}
