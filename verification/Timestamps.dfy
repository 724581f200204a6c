/** UTC instants, and the two spellings of one that delete protection writes and reads back: the
    compact one that leads a graveyard entry's name, and RFC 3339 in a dataset property. */
module Timestamps {
  import opened Wrappers

  datatype Civil = Civil(year: int, month: int, day: int, hour: int, minute: int, second: int, nanos: int)

  const SECOND := 1_000_000_000

  predicate Leap(y: int) {
    y % 4 == 0 && (y % 100 != 0 || y % 400 == 0)
  }

  function DaysIn(y: int, m: int): int {
    if m == 2 then (if Leap(y) then 29 else 28)
    else if m == 4 || m == 6 || m == 9 || m == 11 then 30
    else 31
  }

  predicate Valid(c: Civil) {
    && 0 <= c.year <= 9999 && 1 <= c.month <= 12 && 1 <= c.day <= DaysIn(c.year, c.month)
    && 0 <= c.hour < 24 && 0 <= c.minute < 60 && 0 <= c.second < 60 && 0 <= c.nanos < SECOND
  }

  function BeforeMonth(y: int, m: int): int
    requires 1 <= m <= 13
    decreases m
  {
    if m == 1 then 0 else BeforeMonth(y, m - 1) + DaysIn(y, m - 1)
  }

  /** How many of the years before y are multiples of n. */
  function Multiples(y: int, n: int): int
    requires n > 0
  {
    (y + n - 1) / n
  }

  /** Days since 1 January of year 0. */
  function DayNumber(y: int, m: int, d: int): int
    requires 1 <= m <= 12
  {
    365 * y + Multiples(y, 4) - Multiples(y, 100) + Multiples(y, 400) + BeforeMonth(y, m) + d - 1
  }

  /** The instant as nanoseconds since the start of year 0. */
  function Nanos(c: Civil): int
    requires 1 <= c.month <= 12
  {
    (((DayNumber(c.year, c.month, c.day) * 24 + c.hour) * 60 + c.minute) * 60 + c.second) * SECOND + c.nanos
  }

  /** The calendar is right: the day after a date is numbered one more, across the ends of months,
      of years and of leap Februaries alike. */
  lemma NextDay(y: int, m: int, d: int)
    requires 0 <= y && 1 <= m <= 12 && 1 <= d <= DaysIn(y, m)
    ensures var (y', m', d') := if d < DaysIn(y, m) then (y, m, d + 1)
                                else if m < 12 then (y, m + 1, 1) else (y + 1, 1, 1);
            DayNumber(y', m', d') == DayNumber(y, m, d) + 1
  {
    hide Multiples;
    if d == DaysIn(y, m) && m == 12 {
      YearLength(y);
      LeapDays(y);
    }
  }

  lemma YearLength(y: int)
    ensures BeforeMonth(y, 12) + 31 == if Leap(y) then 366 else 365
  {
    assert BeforeMonth(y, 12) == BeforeMonth(y, 11) + 30;
    assert BeforeMonth(y, 11) == BeforeMonth(y, 10) + 31;
    assert BeforeMonth(y, 10) == BeforeMonth(y, 9) + 30;
    assert BeforeMonth(y, 9) == BeforeMonth(y, 8) + 31;
    assert BeforeMonth(y, 8) == BeforeMonth(y, 7) + 31;
    assert BeforeMonth(y, 7) == BeforeMonth(y, 6) + 30;
    assert BeforeMonth(y, 6) == BeforeMonth(y, 5) + 31;
    assert BeforeMonth(y, 5) == BeforeMonth(y, 4) + 30;
    assert BeforeMonth(y, 4) == BeforeMonth(y, 3) + 31;
    assert BeforeMonth(y, 3) == BeforeMonth(y, 2) + DaysIn(y, 2);
    assert BeforeMonth(y, 2) == BeforeMonth(y, 1) + 31;
  }

  lemma LeapDays(y: int)
    requires 0 <= y
    ensures Multiples(y + 1, 4) - Multiples(y + 1, 100) + Multiples(y + 1, 400)
         == Multiples(y, 4) - Multiples(y, 100) + Multiples(y, 400) + (if Leap(y) then 1 else 0)
  {
    hide Multiples;
    By4(y);
    By100(y);
    By400(y);
  }

  lemma By4(y: int)
    ensures Multiples(y + 1, 4) == Multiples(y, 4) + (if y % 4 == 0 then 1 else 0)
  {
  }

  lemma By100(y: int)
    ensures Multiples(y + 1, 100) == Multiples(y, 100) + (if y % 100 == 0 then 1 else 0)
    ensures y % 100 == 0 ==> y % 4 == 0
  {
  }

  lemma By400(y: int)
    ensures Multiples(y + 1, 400) == Multiples(y, 400) + (if y % 400 == 0 then 1 else 0)
    ensures y % 400 == 0 ==> y % 100 == 0
  {
  }

  // Printing

  function Digit(n: int): char
    requires 0 <= n < 10
  {
    "0123456789"[n]
  }

  function Two(n: int): string
    requires 0 <= n < 100
  {
    [Digit(n / 10), Digit(n % 10)]
  }

  function Four(n: int): string
    requires 0 <= n < 10000
  {
    Two(n / 100) + Two(n % 100)
  }

  /** Format("20060102T150405Z"). */
  function Stamp(c: Civil): string
    requires Valid(c)
  {
    Four(c.year) + Two(c.month) + Two(c.day) + "T" + Two(c.hour) + Two(c.minute) + Two(c.second) + "Z"
  }

  function FormatDeletedAt(c: Civil): string
    requires Valid(c)
  {
    Four(c.year) + "-" + Two(c.month) + "-" + Two(c.day) + "T"
    + Two(c.hour) + ":" + Two(c.minute) + ":" + Two(c.second) + "Z"
  }

  // Parsing, as time.Parse does for these two layouts

  datatype Read = Bad | Read(value: int, rest: string)

  predicate IsDigit(s: string, i: nat) {
    i < |s| && '0' <= s[i] <= '9'
  }

  function Value(c: char): int {
    c as int - '0' as int
  }

  function ReadTwo(s: string): Read {
    if IsDigit(s, 0) && IsDigit(s, 1) then Read(10 * Value(s[0]) + Value(s[1]), s[2..]) else Bad
  }

  function ReadFour(s: string): Read {
    var hi := ReadTwo(s);
    if hi.Bad? then Bad
    else
      var lo := ReadTwo(hi.rest);
      if lo.Bad? then Bad else Read(100 * hi.value + lo.value, lo.rest)
  }

  /** The hour may be written with one digit. */
  function ReadHour(s: string): Read {
    if IsDigit(s, 0) && !IsDigit(s, 1) then Read(Value(s[0]), s[1..]) else ReadTwo(s)
  }

  function Skip(s: string, c: char): Read {
    if s != "" && s[0] == c then Read(0, s[1..]) else Bad
  }

  function DigitRun(s: string): nat {
    if IsDigit(s, 0) then 1 + DigitRun(s[1..]) else 0
  }

  /** A fraction of a second is accepted even where the layout has none; digits past the ninth
      are dropped. */
  function ReadFraction(s: string): (r: Read)
    ensures r.Read?
  {
    if s != "" && (s[0] == '.' || s[0] == ',') && IsDigit(s, 1) then
      var n := DigitRun(s[1..]);
      DigitRunBound(s[1..]);
      Read(Scaled(s[1..][..n], 9), s[1 + n..])
    else Read(0, s)
  }

  lemma DigitRunBound(s: string)
    ensures DigitRun(s) <= |s|
  {
  }

  function Scaled(digits: string, places: nat): int {
    if places == 0 then 0
    else if digits == "" then 0
    else Value(digits[0]) * Power10(places - 1) + Scaled(digits[1..], places - 1)
  }

  function Power10(n: nat): (r: int)
    ensures r > 0
  {
    if n == 0 then 1 else 10 * Power10(n - 1)
  }

  datatype Parsed = Invalid | Parsed(civil: Civil, rest: string)

  function ReadDate(s: string, sep: string): Parsed {
    var y := ReadFour(s);
    if y.Bad? || !(sep <= y.rest) then Invalid
    else
      var m := ReadTwo(y.rest[|sep|..]);
      if m.Bad? || !(1 <= m.value <= 12) || !(sep <= m.rest) then Invalid
      else
        var d := ReadTwo(m.rest[|sep|..]);
        if d.Bad? then Invalid else Parsed(Civil(y.value, m.value, d.value, 0, 0, 0, 0), d.rest)
  }

  function ReadTime(c: Civil, s: string, sep: string): Parsed {
    var h := ReadHour(s);
    if h.Bad? || h.value >= 24 || !(sep <= h.rest) then Invalid
    else
      var m := ReadTwo(h.rest[|sep|..]);
      if m.Bad? || m.value >= 60 || !(sep <= m.rest) then Invalid
      else
        var sec := ReadTwo(m.rest[|sep|..]);
        if sec.Bad? || sec.value >= 60 then Invalid
        else
          var f := ReadFraction(sec.rest);
          Parsed(c.(hour := h.value, minute := m.value, second := sec.value, nanos := f.value), f.rest)
  }

  function ReadMoment(s: string, dateSep: string, timeSep: string): Parsed {
    var d := ReadDate(s, dateSep);
    if d.Invalid? || Skip(d.rest, 'T').Bad? then Invalid
    else ReadTime(d.civil, d.rest[1..], timeSep)
  }

  predicate DayExists(c: Civil) {
    1 <= c.month <= 12 && 1 <= c.day <= DaysIn(c.year, c.month)
  }

  function ParseStamp(s: string): Option<int> {
    var p := ReadMoment(s, "", "");
    if p.Parsed? && p.rest == "Z" && DayExists(p.civil) then Some(Nanos(p.civil)) else None
  }

  /** The offset from UTC in seconds at the end of an RFC 3339 time. */
  function ReadZone(s: string): Option<int> {
    if s == "Z" then Some(0)
    else if |s| != 6 || s[3] != ':' || (s[0] != '+' && s[0] != '-') then None
    else
      var h, m := ReadTwo(s[1..3]), ReadTwo(s[4..6]);
      if h.Bad? || m.Bad? || h.value > 24 || m.value > 60 then None
      else Some((if s[0] == '+' then 1 else -1) * (h.value * 60 + m.value) * 60)
  }

  function ParseDeletedAt(s: string): Option<int> {
    var p := ReadMoment(s, "-", ":");
    if p.Invalid? || !DayExists(p.civil) then None
    else
      var z := ReadZone(p.rest);
      if z.None? then None else Some(Nanos(p.civil) - z.value * SECOND)
  }

  lemma NoTimestamp()
    ensures ParseDeletedAt("") == None
  {
  }

  // Round trips

  function Truncated(c: Civil): Civil {
    c.(nanos := 0)
  }

  lemma ReadsTwo(n: int, rest: string)
    requires 0 <= n < 100
    ensures ReadTwo(Two(n) + rest) == Read(n, rest)
    ensures ReadHour(Two(n) + rest) == Read(n, rest)
  {
    var s := Two(n) + rest;
    assert s[0] == Digit(n / 10) && s[1] == Digit(n % 10) && s[2..] == rest;
  }

  lemma ReadsFour(n: int, rest: string)
    requires 0 <= n < 10000
    ensures ReadFour(Four(n) + rest) == Read(n, rest)
  {
    assert Four(n) + rest == Two(n / 100) + (Two(n % 100) + rest);
    ReadsTwo(n / 100, Two(n % 100) + rest);
    ReadsTwo(n % 100, rest);
  }

  lemma ReadsDate(c: Civil, sep: string, rest: string)
    requires Valid(c)
    ensures ReadDate(Four(c.year) + sep + Two(c.month) + sep + Two(c.day) + rest, sep)
         == Parsed(Civil(c.year, c.month, c.day, 0, 0, 0, 0), rest)
  {
    hide Two, Four, ReadTwo, ReadFour;
    var s := Four(c.year) + sep + Two(c.month) + sep + Two(c.day) + rest;
    var s1 := Two(c.month) + (sep + Two(c.day) + rest);
    assert s == Four(c.year) + (sep + s1);
    ReadsFour(c.year, sep + s1);
    assert (sep + s1)[|sep|..] == s1;
    ReadsTwo(c.month, sep + Two(c.day) + rest);
    assert (sep + Two(c.day) + rest)[|sep|..] == Two(c.day) + rest;
    ReadsTwo(c.day, rest);
  }

  lemma ReadsTime(d: Civil, c: Civil, sep: string)
    requires Valid(c)
    ensures ReadTime(d, Two(c.hour) + sep + Two(c.minute) + sep + Two(c.second) + "Z", sep)
         == Parsed(d.(hour := c.hour, minute := c.minute, second := c.second, nanos := 0), "Z")
  {
    hide Two, ReadTwo, ReadHour;
    var s := Two(c.hour) + sep + Two(c.minute) + sep + Two(c.second) + "Z";
    var s1 := Two(c.minute) + (sep + Two(c.second) + "Z");
    assert s == Two(c.hour) + (sep + s1);
    ReadsTwo(c.hour, sep + s1);
    assert (sep + s1)[|sep|..] == s1;
    ReadsTwo(c.minute, sep + Two(c.second) + "Z");
    assert (sep + Two(c.second) + "Z")[|sep|..] == Two(c.second) + "Z";
    ReadsTwo(c.second, "Z");
  }

  lemma ReadsMoment(c: Civil, a: string, b: string)
    requires Valid(c)
    ensures ReadMoment(Four(c.year) + a + Two(c.month) + a + Two(c.day) + "T"
                       + Two(c.hour) + b + Two(c.minute) + b + Two(c.second) + "Z", a, b)
         == Parsed(Truncated(c), "Z")
  {
    hide Two, Four, ReadDate, ReadTime;
    var date := Four(c.year) + a + Two(c.month) + a + Two(c.day);
    var time := Two(c.hour) + b + Two(c.minute) + b + Two(c.second) + "Z";
    ReadsDate(c, a, "T" + time);
    ReadsTime(Civil(c.year, c.month, c.day, 0, 0, 0, 0), c, b);
    assert date + ("T" + time)
        == date + "T" + Two(c.hour) + b + Two(c.minute) + b + Two(c.second) + "Z";
    assert ("T" + time)[1..] == time;
  }

  /** The name stamp reads back as the instant to the second, for every instant it can print. */
  lemma StampRoundTrip(c: Civil)
    requires Valid(c)
    ensures ParseStamp(Stamp(c)) == Some(Nanos(Truncated(c)))
  {
    hide Two, Four, Nanos, ReadMoment;
    ReadsMoment(c, "", "");
    var y, m := Four(c.year), Four(c.year) + Two(c.month);
    assert y + "" == y && m + "" == m;
    var h := m + Two(c.day) + "T" + Two(c.hour);
    assert h + "" == h && h + Two(c.minute) + "" == h + Two(c.minute);
  }

  lemma StampShape(c: Civil)
    requires Valid(c)
    ensures |Stamp(c)| == 16 && '-' !in Stamp(c) && '/' !in Stamp(c)
  {
    hide Two;
    TwoShape(c.year / 100);
    TwoShape(c.year % 100);
    TwoShape(c.month);
    TwoShape(c.day);
    TwoShape(c.hour);
    TwoShape(c.minute);
    TwoShape(c.second);
  }

  lemma TwoShape(n: int)
    requires 0 <= n < 100
    ensures |Two(n)| == 2 && '-' !in Two(n) && '/' !in Two(n)
  {
  }

  /** Reading to the second loses less than a second and never reads a later instant. */
  lemma TruncatedIsClose(c: Civil)
    requires Valid(c)
    ensures Nanos(c) - SECOND < Nanos(Truncated(c)) <= Nanos(c)
  {
    hide DayNumber;
  }

  /** The property reads back as the same instant. */
  lemma DeletedAtRoundTrip(c: Civil)
    requires Valid(c)
    ensures ParseDeletedAt(FormatDeletedAt(c)) == Some(Nanos(Truncated(c)))
  {
    hide Two, Four, Nanos, ReadMoment;
    ReadsMoment(c, "-", ":");
  }

  // What else is read

  lemma TwoRead(s: string)
    requires ReadTwo(s).Read?
    ensures 0 <= ReadTwo(s).value < 100 && s == Two(ReadTwo(s).value) + ReadTwo(s).rest
  {
    var x, y := Value(s[0]), Value(s[1]);
    assert (10 * x + y) / 10 == x && (10 * x + y) % 10 == y;
    DigitOf(s[0]);
    DigitOf(s[1]);
  }

  lemma DigitOf(c: char)
    requires '0' <= c <= '9'
    ensures 0 <= Value(c) < 10 && Digit(Value(c)) == c
  {
  }

  lemma FourRead(s: string)
    requires ReadFour(s).Read?
    ensures 0 <= ReadFour(s).value < 10000 && s == Four(ReadFour(s).value) + ReadFour(s).rest
  {
    hide Two, ReadTwo;
    TwoRead(s);
    var hi := ReadTwo(s);
    TwoRead(hi.rest);
    var lo := ReadTwo(hi.rest);
    var v := 100 * hi.value + lo.value;
    assert v / 100 == hi.value && v % 100 == lo.value;
    assert s == Two(hi.value) + (Two(lo.value) + lo.rest);
  }

  /** A name's stamp is read as an instant only if it is the spelling of one: of sixteen characters,
      exactly the stamps that Retire writes are accepted, each as the instant it was written for. */
  lemma OnlyStampsRead(s: string) returns (c: Civil)
    requires ParseStamp(s).Some? && |s| == 16
    ensures Valid(c) && c.nanos == 0 && s == Stamp(c) && ParseStamp(s) == Some(Nanos(c))
  {
    hide Two, Four, ReadTwo, ReadFour, Nanos, ReadFraction;
    var y := ReadFour(s);
    FourRead(s);
    assert y.rest[|""|..] == y.rest;
    var m := ReadTwo(y.rest);
    TwoRead(y.rest);
    assert m.rest[|""|..] == m.rest;
    var d := ReadTwo(m.rest);
    TwoRead(m.rest);
    Lengths(y.value, m.value, d.value);
    assert |d.rest| == 8 && d.rest == "T" + d.rest[1..];
    c := StampTime(Civil(y.value, m.value, d.value, 0, 0, 0, 0), d.rest[1..]);
    assert s == Stamp(c);
    StampRoundTrip(c);
    assert Truncated(c) == c;
  }

  lemma Lengths(y: int, m: int, d: int)
    requires 0 <= y < 10000 && 0 <= m < 100 && 0 <= d < 100
    ensures |Four(y)| == 4 && |Two(m)| == 2 && |Two(d)| == 2
  {
  }

  /** The same of the time of day. */
  lemma StampTime(date: Civil, s: string) returns (c: Civil)
    requires var p := ReadTime(date, s, ""); p.Parsed? && p.rest == "Z" && |s| == 7
    ensures var p := ReadTime(date, s, "");
            && c == p.civil && c == date.(hour := c.hour, minute := c.minute, second := c.second, nanos := 0)
            && 0 <= c.hour < 24 && 0 <= c.minute < 60 && 0 <= c.second < 60
            && s == Two(c.hour) + Two(c.minute) + Two(c.second) + "Z"
  {
    hide Two, ReadTwo, ReadFraction;
    var h := ReadHour(s);
    assert h.rest[|""|..] == h.rest;
    HourHasTwo(s);
    TwoRead(s);
    var m := ReadTwo(h.rest);
    TwoRead(h.rest);
    assert m.rest[|""|..] == m.rest;
    var sec := ReadTwo(m.rest);
    TwoRead(m.rest);
    Lengths(0, h.value, m.value);
    Lengths(0, sec.value, 0);
    NoFraction(sec.rest);
    c := ReadTime(date, s, "").civil;
  }

  lemma HourHasTwo(s: string)
    requires ReadHour(s).Read? && ReadTwo(ReadHour(s).rest).Read?
    ensures ReadHour(s) == ReadTwo(s)
  {
  }

  lemma NoFraction(s: string)
    requires |s| == 1
    ensures ReadFraction(s) == Read(0, s)
  {
  }

  ghost predicate AllDigits(s: string) {
    forall i :: 0 <= i < |s| ==> '0' <= s[i] <= '9'
  }

  /** The number the digits spell. */
  function NumberOf(digits: string): int {
    if digits == "" then 0 else Value(digits[0]) * Power10(|digits| - 1) + NumberOf(digits[1..])
  }

  lemma {:induction false} RunOfDigits(digits: string, rest: string)
    requires AllDigits(digits) && !IsDigit(rest, 0)
    ensures DigitRun(digits + rest) == |digits|
    decreases |digits|
  {
    if digits == "" {
      assert digits + rest == rest;
    } else {
      RunOfDigits(digits[1..], rest);
      assert (digits + rest)[1..] == digits[1..] + rest;
    }
  }

  lemma {:induction false} PowersAdd(a: nat, b: nat)
    ensures Power10(a + b) == Power10(a) * Power10(b) && Power10(a) > 0
  {
    if a > 0 {
      PowersAdd(a - 1, b);
      assert 10 * (Power10(a - 1) * Power10(b)) == (10 * Power10(a - 1)) * Power10(b);
    }
  }

  lemma Factor(v: int, p: int, n: int, q: int)
    ensures (v * p + n) * q == v * (p * q) + n * q
  {
  }

  lemma {:induction false} ScaledShort(digits: string, places: nat)
    requires |digits| <= places
    ensures Scaled(digits, places) == NumberOf(digits) * Power10(places - |digits|)
    decreases |digits|
  {
    if digits != "" {
      var n := |digits|;
      ScaledShort(digits[1..], places - 1);
      PowersAdd(n - 1, places - n);
      Factor(Value(digits[0]), Power10(n - 1), NumberOf(digits[1..]), Power10(places - n));
    }
  }

  lemma {:induction false} ScaledLong(digits: string, places: nat)
    requires |digits| >= places
    ensures Scaled(digits, places) == NumberOf(digits[..places])
    decreases places
  {
    if places > 0 {
      ScaledLong(digits[1..], places - 1);
      assert digits[..places][1..] == digits[1..][..places - 1];
    }
  }

  lemma {:induction false} NumberSplits(digits: string, k: nat)
    requires k <= |digits|
    ensures NumberOf(digits) == NumberOf(digits[..k]) * Power10(|digits| - k) + NumberOf(digits[k..])
    decreases k
  {
    if k == 0 {
      assert digits[0..] == digits;
    } else {
      var n := |digits|;
      NumberSplits(digits[1..], k - 1);
      assert digits[1..][..k - 1] == digits[..k][1..] && digits[1..][k - 1..] == digits[k..];
      PowersAdd(k - 1, n - k);
      Factor(Value(digits[0]), Power10(k - 1), NumberOf(digits[..k][1..]), Power10(n - k));
    }
  }

  lemma Bounded(v: int, top: int, p: int)
    requires 0 <= v <= top && p > 0
    ensures 0 <= v * p <= top * p
  {
    assert (top - v) * p >= 0;
  }

  lemma {:induction false} NumberFits(digits: string)
    requires AllDigits(digits)
    ensures 0 <= NumberOf(digits) < Power10(|digits|)
    decreases |digits|
  {
    if digits != "" {
      NumberFits(digits[1..]);
      PowersAdd(|digits| - 1, 0);
      var v, p := Value(digits[0]), Power10(|digits| - 1);
      Bounded(v, 9, p);
    }
  }

  lemma Quotient(a: int, p: int, b: int)
    requires 0 <= b < p
    ensures (a * p + b) / p == a
  {
    var x := a * p + b;
    var q, r := x / p, x % p;
    assert x == p * q + r;
    assert p * q == q * p;
    if a > q {
      AtLeast(a, q, p);
    } else if q > a {
      AtLeast(q, a, p);
    }
  }

  lemma AtLeast(a: int, b: int, p: int)
    requires a > b && p > 0
    ensures a * p >= b * p + p
  {
    assert a * p == b * p + (a - b) * p;
    assert (a - b) * p == p + (a - b - 1) * p;
    assert (a - b - 1) * p >= 0;
  }

  /** The nanoseconds a fraction of a second spells: a short one is filled up with zeros, and digits
      past the ninth are dropped. */
  function FractionValue(digits: string): int {
    if |digits| <= 9 then NumberOf(digits) * Power10(9 - |digits|) else NumberOf(digits) / Power10(|digits| - 9)
  }

  lemma ScaledIs(digits: string)
    requires AllDigits(digits)
    ensures Scaled(digits, 9) == FractionValue(digits)
  {
    hide Scaled, NumberOf, Power10;
    var n := |digits|;
    if n <= 9 {
      ScaledShort(digits, 9);
    } else {
      ScaledLong(digits, 9);
      NumberSplits(digits, 9);
      NumberFits(digits[9..]);
      Quotient(NumberOf(digits[..9]), Power10(n - 9), NumberOf(digits[9..]));
    }
  }

  /** A fraction of any number of digits, after a point or a comma, is read as what it spells. */
  lemma FractionReads(separator: char, digits: string, rest: string)
    requires separator == '.' || separator == ','
    requires digits != "" && AllDigits(digits) && !IsDigit(rest, 0)
    ensures ReadFraction([separator] + digits + rest) == Read(FractionValue(digits), rest)
  {
    hide Scaled, FractionValue, DigitRun;
    var s, n := [separator] + digits + rest, |digits|;
    assert s[1..] == digits + rest;
    RunOfDigits(digits, rest);
    assert s[1..][..n] == digits && s[1 + n..] == rest;
    ScaledIs(digits);
  }

  lemma ZoneReads(ahead: bool, h: int, m: int)
    requires 0 <= h <= 24 && 0 <= m <= 60
    ensures ReadZone((if ahead then "+" else "-") + Two(h) + ":" + Two(m))
         == Some((if ahead then h * 60 + m else -(h * 60 + m)) * 60)
  {
    hide Two, ReadTwo;
    var s := (if ahead then "+" else "-") + Two(h) + ":" + Two(m);
    Lengths(0, h, m);
    assert s[1..3] == Two(h) + "" && s[4..6] == Two(m) + "";
    ReadsTwo(h, "");
    ReadsTwo(m, "");
  }
}
