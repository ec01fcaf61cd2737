/** Stored UTC timestamps: `datetime.isoformat()` strings, compared as strings. */
module Timestamps {

  // ---- order on strings ----

  /** Lexicographic order by code point: sqlite's BINARY order, and Python's on these strings. */
  predicate Before(s: string, t: string) {
    if s == [] then t != []
    else t != [] && (s[0] < t[0] || (s[0] == t[0] && Before(s[1..], t[1..])))
  }

  predicate NotAfter(s: string, t: string) {
    s == t || Before(s, t)
  }

  lemma {:induction false} BeforeIsIrreflexive(s: string)
    ensures !Before(s, s)
    decreases |s|
  {
    if s != [] { BeforeIsIrreflexive(s[1..]); }
  }

  lemma {:induction false} BeforeIsAsymmetric(s: string, t: string)
    requires Before(s, t)
    ensures !Before(t, s) && s != t
    decreases |s|
  {
    if s != [] && s[0] == t[0] { BeforeIsAsymmetric(s[1..], t[1..]); }
  }

  lemma {:induction false} SamePrefix(p: string, s: string, t: string)
    ensures Before(p + s, p + t) <==> Before(s, t)
    decreases |p|
  {
    if p == [] {
      assert p + s == s && p + t == t;
    } else {
      assert (p + s)[1..] == p[1..] + s && (p + t)[1..] == p[1..] + t;
      SamePrefix(p[1..], s, t);
    }
  }

  lemma {:induction false} PrefixDecides(p: string, q: string, s: string, t: string)
    requires |p| == |q| && Before(p, q)
    ensures Before(p + s, q + t)
    decreases |p|
  {
    if p[0] == q[0] {
      assert (p + s)[1..] == p[1..] + s && (q + t)[1..] == q[1..] + t;
      PrefixDecides(p[1..], q[1..], s, t);
    }
  }

  // ---- fixed-width decimals ----

  function Digit(d: nat): char
    requires d < 10
  {
    "0123456789"[d]
  }

  function Pow10(n: nat): nat {
    if n == 0 then 1 else 10 * Pow10(n - 1)
  }

  /** `n` in `width` digits, zero-padded. */
  function Padded(n: nat, width: nat): (s: string)
    requires n < Pow10(width)
    ensures |s| == width
    decreases width
  {
    if width == 0 then "" else Padded(n / 10, width - 1) + [Digit(n % 10)]
  }

  lemma {:induction false} PaddedOrder(a: nat, b: nat, width: nat)
    requires a < b < Pow10(width)
    ensures Before(Padded(a, width), Padded(b, width))
    decreases width
  {
    var p, q := Padded(a / 10, width - 1), Padded(b / 10, width - 1);
    if a / 10 < b / 10 {
      PaddedOrder(a / 10, b / 10, width - 1);
      PrefixDecides(p, q, [Digit(a % 10)], [Digit(b % 10)]);
    } else {
      assert a / 10 == b / 10 && a % 10 < b % 10;
      SamePrefix(p, [Digit(a % 10)], [Digit(b % 10)]);
    }
  }

  // ---- calendar ----

  /** A UTC datetime of Python's proleptic Gregorian calendar. */
  datatype Stamp = Stamp(year: nat, month: nat, day: nat, hour: nat, minute: nat, second: nat, micro: nat)

  predicate IsLeap(year: nat) {
    year % 4 == 0 && (year % 100 != 0 || year % 400 == 0)
  }

  function DaysInYear(year: nat): nat {
    if IsLeap(year) then 366 else 365
  }

  function DaysInMonth(year: nat, month: nat): nat {
    if month == 2 then (if IsLeap(year) then 29 else 28)
    else if month == 4 || month == 6 || month == 9 || month == 11 then 30
    else 31
  }

  predicate ValidStamp(t: Stamp) {
    && 1 <= t.year <= 9999 && 1 <= t.month <= 12 && 1 <= t.day <= DaysInMonth(t.year, t.month)
    && t.hour < 24 && t.minute < 60 && t.second < 60 && t.micro < 1_000_000
  }

  /** Days from 0001-01-01 to the first day of the year. */
  function DaysBeforeYear(year: nat): nat
    requires year >= 1
  {
    if year == 1 then 0 else DaysBeforeYear(year - 1) + DaysInYear(year - 1)
  }

  function DaysBeforeMonth(year: nat, month: nat): nat
    requires 1 <= month <= 13
    decreases month
  {
    if month == 1 then 0 else DaysBeforeMonth(year, month - 1) + DaysInMonth(year, month - 1)
  }

  function DayNumber(t: Stamp): nat
    requires ValidStamp(t)
  {
    DaysBeforeYear(t.year) + DaysBeforeMonth(t.year, t.month) + (t.day - 1)
  }

  function MicrosOfDay(t: Stamp): nat {
    ((t.hour * 60 + t.minute) * 60 + t.second) * 1_000_000 + t.micro
  }

  const MICROS_PER_DAY: nat := 86_400_000_000

  /** Microseconds since 0001-01-01T00:00:00: the time line that `timedelta` moves along. */
  function Micros(t: Stamp): nat
    requires ValidStamp(t)
  {
    DayNumber(t) * MICROS_PER_DAY + MicrosOfDay(t)
  }

  lemma {:induction false} MonthsMakeAYear(year: nat)
    ensures DaysBeforeMonth(year, 13) == DaysInYear(year)
  {
    assert DaysBeforeMonth(year, 4) == DaysInMonth(year, 1) + DaysInMonth(year, 2) + DaysInMonth(year, 3) by {
      assert DaysBeforeMonth(year, 2) == DaysInMonth(year, 1);
      assert DaysBeforeMonth(year, 3) == DaysBeforeMonth(year, 2) + DaysInMonth(year, 2);
    }
    assert DaysBeforeMonth(year, 7) == DaysBeforeMonth(year, 4) + 91 by {
      assert DaysBeforeMonth(year, 6) == DaysBeforeMonth(year, 5) + 31;
    }
    assert DaysBeforeMonth(year, 10) == DaysBeforeMonth(year, 7) + 92 by {
      assert DaysBeforeMonth(year, 9) == DaysBeforeMonth(year, 8) + 31;
    }
    assert DaysBeforeMonth(year, 13) == DaysBeforeMonth(year, 10) + 92 by {
      assert DaysBeforeMonth(year, 12) == DaysBeforeMonth(year, 11) + 30;
    }
  }

  lemma {:induction false} YearsGrow(y: nat, z: nat)
    requires 1 <= y < z
    ensures DaysBeforeYear(y) + DaysInYear(y) <= DaysBeforeYear(z)
    decreases z
  {
    if y < z - 1 { YearsGrow(y, z - 1); }
  }

  lemma {:induction false} MonthsGrow(year: nat, m: nat, n: nat)
    requires 1 <= m < n <= 13
    ensures DaysBeforeMonth(year, m) + DaysInMonth(year, m) <= DaysBeforeMonth(year, n)
    decreases n
  {
    if m < n - 1 { MonthsGrow(year, m, n - 1); }
  }

  /** Field by field, most significant first: how CPython orders datetimes of one zone. */
  predicate EarlierDate(a: Stamp, b: Stamp) {
    a.year < b.year || (a.year == b.year && (a.month < b.month || (a.month == b.month && a.day < b.day)))
  }

  predicate SameDate(a: Stamp, b: Stamp) {
    a.year == b.year && a.month == b.month && a.day == b.day
  }

  predicate EarlierClock(a: Stamp, b: Stamp) {
    a.hour < b.hour || (a.hour == b.hour && (a.minute < b.minute || (a.minute == b.minute &&
      (a.second < b.second || (a.second == b.second && a.micro < b.micro)))))
  }

  predicate Earlier(a: Stamp, b: Stamp) {
    EarlierDate(a, b) || (SameDate(a, b) && EarlierClock(a, b))
  }

  lemma EarlierDateIsFewerDays(a: Stamp, b: Stamp)
    requires ValidStamp(a) && ValidStamp(b) && EarlierDate(a, b)
    ensures DayNumber(a) < DayNumber(b)
  {
    if a.year < b.year {
      YearsGrow(a.year, b.year);
      MonthsMakeAYear(a.year);
      MonthsGrow(a.year, a.month, 13);
    } else if a.month < b.month {
      MonthsGrow(a.year, a.month, b.month);
    }
  }

  lemma MicrosBelowADay(t: Stamp)
    requires ValidStamp(t)
    ensures MicrosOfDay(t) < MICROS_PER_DAY
  {
  }

  lemma EarlierIsFewerMicros(a: Stamp, b: Stamp)
    requires ValidStamp(a) && ValidStamp(b) && Earlier(a, b)
    ensures Micros(a) < Micros(b)
  {
    MicrosBelowADay(a);
    if EarlierDate(a, b) {
      EarlierDateIsFewerDays(a, b);
      assert DayNumber(a) + 1 <= DayNumber(b);
    } else {
      assert MicrosOfDay(a) < MicrosOfDay(b);
    }
  }

  // ---- isoformat ----

  /** A text field: a number in fixed width, and the character after it. */
  datatype Field = Field(value: nat, width: nat, after: string)

  ghost predicate FieldsFit(fields: seq<Field>) {
    forall k :: 0 <= k < |fields| ==> fields[k].value < Pow10(fields[k].width)
  }

  function FieldText(fields: seq<Field>, tail: string): string
    requires FieldsFit(fields)
  {
    if fields == [] then tail
    else Padded(fields[0].value, fields[0].width) + (fields[0].after + FieldText(fields[1..], tail))
  }

  ghost predicate SameShape(f: seq<Field>, g: seq<Field>) {
    |f| == |g| && forall k :: 0 <= k < |f| ==> f[k].width == g[k].width && f[k].after == g[k].after
  }

  /** The first field that differs decides; if none differs, the tails do. */
  lemma {:induction false} FieldOrder(f: seq<Field>, g: seq<Field>, x: string, y: string, k: nat)
    requires FieldsFit(f) && FieldsFit(g) && SameShape(f, g) && k <= |f|
    requires f[..k] == g[..k]
    requires if k < |f| then f[k].value < g[k].value else Before(x, y)
    ensures Before(FieldText(f, x), FieldText(g, y))
    decreases |f|
  {
    if f != [] {
      var p, q := Padded(f[0].value, f[0].width), Padded(g[0].value, g[0].width);
      var restF, restG := FieldText(f[1..], x), FieldText(g[1..], y);
      if k == 0 {
        PaddedOrder(f[0].value, g[0].value, f[0].width);
        PrefixDecides(p, q, f[0].after + restF, g[0].after + restG);
      } else {
        assert f[0] == f[..k][0] == g[..k][0] == g[0];
        assert f[1..][..k - 1] == f[..k][1..] == g[..k][1..] == g[1..][..k - 1];
        FieldOrder(f[1..], g[1..], x, y, k - 1);
        SamePrefix(f[0].after, restF, restG);
        SamePrefix(p, f[0].after + restF, f[0].after + restG);
      }
    }
  }

  function Fields(t: Stamp): seq<Field> {
    [Field(t.year, 4, "-"), Field(t.month, 2, "-"), Field(t.day, 2, "T"),
     Field(t.hour, 2, ":"), Field(t.minute, 2, ":"), Field(t.second, 2, "")]
  }

  /** The fraction is dropped when it is zero. */
  function Tail(micro: nat): string
    requires micro < 1_000_000
  {
    assert Pow10(6) == 1_000_000 by { assert Pow10(3) == 1000; }
    if micro == 0 then "+00:00" else "." + (Padded(micro, 6) + "+00:00")
  }

  lemma StampFits(t: Stamp)
    requires ValidStamp(t)
    ensures FieldsFit(Fields(t))
  {
    assert Pow10(2) == 100;
    assert Pow10(4) == 10_000;
  }

  /** `datetime.isoformat()` of a UTC datetime. */
  function Iso(t: Stamp): string
    requires ValidStamp(t)
  {
    StampFits(t);
    FieldText(Fields(t), Tail(t.micro))
  }

  /** A missing fraction sorts before any fraction because '+' sorts before '.'. */
  lemma TailOrder(a: nat, b: nat)
    requires a < b < 1_000_000
    ensures Before(Tail(a), Tail(b))
  {
    assert Pow10(6) == 1_000_000 by { assert Pow10(3) == 1000; }
    if a == 0 {
      assert Tail(a)[0] == '+' && Tail(b)[0] == '.';
    } else {
      PaddedOrder(a, b, 6);
      PrefixDecides(Padded(a, 6), Padded(b, 6), "+00:00", "+00:00");
      SamePrefix(".", Padded(a, 6) + "+00:00", Padded(b, 6) + "+00:00");
    }
  }

  /** The first text field in which two datetimes differ; 6 if only the fraction may. */
  function FirstDifference(a: Stamp, b: Stamp): nat {
    if a.year != b.year then 0 else if a.month != b.month then 1 else if a.day != b.day then 2
    else if a.hour != b.hour then 3 else if a.minute != b.minute then 4 else if a.second != b.second then 5 else 6
  }

  lemma EarlierByField(a: Stamp, b: Stamp)
    requires Earlier(a, b)
    ensures var k := FirstDifference(a, b);
            Fields(a)[..k] == Fields(b)[..k] && if k < 6 then Fields(a)[k].value < Fields(b)[k].value else a.micro < b.micro
  {
  }

  lemma IsoOrder(a: Stamp, b: Stamp)
    requires ValidStamp(a) && ValidStamp(b) && Earlier(a, b)
    ensures Before(Iso(a), Iso(b))
  {
    StampFits(a);
    StampFits(b);
    EarlierByField(a, b);
    var k := FirstDifference(a, b);
    assert SameShape(Fields(a), Fields(b));
    hide FieldText, Tail, FieldsFit, FirstDifference, Fields, Earlier, SameShape;
    if k == 6 {
      TailOrder(a.micro, b.micro);
    }
    assert |Fields(a)| == 6 by { ShapeOfStamps(a); }
    FieldOrder(Fields(a), Fields(b), Tail(a.micro), Tail(b.micro), k);
  }

  lemma ShapeOfStamps(a: Stamp)
    ensures |Fields(a)| == 6
  {
  }

  lemma OneIsEarlier(a: Stamp, b: Stamp)
    ensures Earlier(a, b) || Earlier(b, a) || a == b
  {
  }

  /** String order of stored timestamps is time order, for every pair of datetimes. */
  lemma StringOrderIsTimeOrder(a: Stamp, b: Stamp)
    requires ValidStamp(a) && ValidStamp(b)
    ensures Before(Iso(a), Iso(b)) <==> Micros(a) < Micros(b)
    ensures NotAfter(Iso(a), Iso(b)) <==> Micros(a) <= Micros(b)
    ensures Iso(a) == Iso(b) <==> a == b
  {
    OneIsEarlier(a, b);
    if Earlier(a, b) {
      IsoOrder(a, b);
      EarlierIsFewerMicros(a, b);
      BeforeIsAsymmetric(Iso(a), Iso(b));
    } else if Earlier(b, a) {
      IsoOrder(b, a);
      EarlierIsFewerMicros(b, a);
      BeforeIsAsymmetric(Iso(b), Iso(a));
    } else {
      BeforeIsIrreflexive(Iso(a));
    }
  }

  // ---- instants ----

  /** The year holding day `days`, counted from the first day of `year`, and the days left in it. */
  function YearOf(days: nat, year: nat): (r: (nat, nat))
    requires year >= 1
    ensures r.0 >= year && r.1 < DaysInYear(r.0)
    ensures DaysBeforeYear(r.0) + r.1 == DaysBeforeYear(year) + days
    decreases days
  {
    if days < DaysInYear(year) then (year, days) else YearOf(days - DaysInYear(year), year + 1)
  }

  function MonthOf(year: nat, days: nat, month: nat): (r: (nat, nat))
    requires 1 <= month <= 12 && DaysBeforeMonth(year, month) + days < DaysBeforeMonth(year, 13)
    ensures month <= r.0 <= 12 && r.1 < DaysInMonth(year, r.0)
    ensures DaysBeforeMonth(year, r.0) + r.1 == DaysBeforeMonth(year, month) + days
    decreases 12 - month
  {
    if days < DaysInMonth(year, month) then (month, days)
    else MonthOf(year, days - DaysInMonth(year, month), month + 1)
  }

  /** The datetime at an instant; its year may be past 9999, where Python raises OverflowError. */
  function At(micros: nat): Stamp {
    var days, left := micros / MICROS_PER_DAY, micros % MICROS_PER_DAY;
    var (year, dayOfYear) := YearOf(days, 1);
    MonthsMakeAYear(year);
    var (month, dayOfMonth) := MonthOf(year, dayOfYear, 1);
    var seconds := left / 1_000_000;
    Stamp(year, month, dayOfMonth + 1, seconds / 3600, seconds / 60 % 60, seconds % 60, left % 1_000_000)
  }

  predicate Representable(micros: nat) {
    At(micros).year <= 9999
  }

  lemma AtIsValid(micros: nat)
    requires Representable(micros)
    ensures ValidStamp(At(micros)) && Micros(At(micros)) == micros
  {
    var days, left := micros / MICROS_PER_DAY, micros % MICROS_PER_DAY;
    var t := At(micros);
    assert left < MICROS_PER_DAY;
    ClockRoundTrip(left);
    assert DayNumber(t) == days;
  }

  lemma ClockRoundTrip(left: nat)
    requires left < MICROS_PER_DAY
    ensures var s := left / 1_000_000;
            s / 3600 < 24 && ((s / 3600 * 60 + s / 60 % 60) * 60 + s % 60) * 1_000_000 + left % 1_000_000 == left
  {
    var s := left / 1_000_000;
    assert s / 60 / 60 == s / 3600;
    assert s == s / 60 * 60 + s % 60;
    assert s / 60 == s / 60 / 60 * 60 + s / 60 % 60;
  }

  /** The text stored for an instant. */
  function IsoAt(micros: nat): string
    requires Representable(micros)
  {
    AtIsValid(micros);
    Iso(At(micros))
  }

  /** The expiry test `expires_at <= now_s` on stored texts decides exactly "expires at or before now". */
  lemma ExpiryTestIsExact(expires: nat, now: nat)
    requires Representable(expires) && Representable(now)
    ensures NotAfter(IsoAt(expires), IsoAt(now)) <==> expires <= now
  {
    AtIsValid(expires);
    AtIsValid(now);
    StringOrderIsTimeOrder(At(expires), At(now));
  }
}
