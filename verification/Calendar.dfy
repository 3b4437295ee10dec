/** Epoch seconds to civil time, and the ISO 8601 text built from it. */
module Calendar {
  import opened Prelude
  import opened Decimal
  import opened Text

  const SECS_PER_DAY := 86400
  const SECS_PER_HOUR := 3600
  const SECS_PER_MIN := 60

  /** The first instant of year 10000. */
  const YEAR_10000_SECS := 253402300800

  datatype Civil = Civil(year: int, month: int, day: int, hour: int, minute: int, second: int)

  predicate IsLeap(year: int) { (year % 4 == 0 && year % 100 != 0) || year % 400 == 0 }

  function YearDays(y: int): int { if IsLeap(y) then 366 else 365 }

  function MonthDays(y: int): (table: seq<int>)
    ensures |table| == 12
  {
    if IsLeap(y) then [31, 29, 31, 30, 31, 30, 31, 31, 30, 31, 30, 31]
    else [31, 28, 31, 30, 31, 30, 31, 31, 30, 31, 30, 31]
  }

  // The reference: closed-form day counts of the proleptic Gregorian calendar.

  /** Days from 1970-01-01 to January 1st of year y. */
  function DaysBeforeYear(y: int): int
  {
    365 * (y - 1970) + (y - 1) / 4 - (y - 1) / 100 + (y - 1) / 400 - 477
  }

  /** Days from January 1st to the first of month m, of year y. */
  function DaysBeforeMonth(y: int, m: int): int
    requires 1 <= m <= 13
  {
    [0, 31, 59, 90, 120, 151, 181, 212, 243, 273, 304, 334, 365][m - 1] + if m > 2 && IsLeap(y) then 1 else 0
  }

  predicate ValidCivil(c: Civil)
  {
    && c.year >= 1970
    && 1 <= c.month <= 12
    && 1 <= c.day <= MonthDays(c.year)[c.month - 1]
    && 0 <= c.hour < 24 && 0 <= c.minute < 60 && 0 <= c.second < 60
  }

  function DayNumber(c: Civil): int
    requires ValidCivil(c)
  {
    DaysBeforeYear(c.year) + DaysBeforeMonth(c.year, c.month) + c.day - 1
  }

  function SecondsOf(c: Civil): int
    requires ValidCivil(c)
  {
    DayNumber(c) * SECS_PER_DAY + c.hour * SECS_PER_HOUR + c.minute * SECS_PER_MIN + c.second
  }

  /** How many multiples of 4, 100 and 400 a year adds. */
  lemma {:induction false} MultipleSteps(y: int)
    ensures y / 4 - (y - 1) / 4 == if y % 4 == 0 then 1 else 0
    ensures y / 100 - (y - 1) / 100 == if y % 100 == 0 then 1 else 0
    ensures y / 400 - (y - 1) / 400 == if y % 400 == 0 then 1 else 0
  {
  }

  lemma {:induction false} LeapDays(y: int)
    ensures YearDays(y) == 365 + (if y % 4 == 0 then 1 else 0) - (if y % 100 == 0 then 1 else 0)
                           + (if y % 400 == 0 then 1 else 0)
  {
    if y % 400 == 0 { Hundreds(y, 4 * (y / 400)); }
    if y % 100 == 0 { Fours(y, 25 * (y / 100)); }
  }

  lemma {:induction false} Hundreds(y: int, k: int)
    requires y == 100 * k
    ensures y % 100 == 0
  {
  }

  lemma {:induction false} Fours(y: int, k: int)
    requires y == 4 * k
    ensures y % 4 == 0
  {
  }

  lemma {:induction false} YearStep(y: int)
    ensures DaysBeforeYear(y + 1) == DaysBeforeYear(y) + YearDays(y)
  {
    MultipleSteps(y);
    LeapDays(y);
    assert y + 1 - 1 == y;
  }

  lemma {:induction false} MonthStep(y: int, m: int)
    requires 1 <= m <= 12
    ensures DaysBeforeMonth(y, m + 1) == DaysBeforeMonth(y, m) + MonthDays(y)[m - 1]
    ensures DaysBeforeMonth(y, 13) == YearDays(y)
  {
  }

  lemma {:induction false} YearsApart(y: int, z: int)
    requires y <= z
    ensures DaysBeforeYear(z) >= DaysBeforeYear(y) + 365 * (z - y)
    decreases z - y
  {
    if y < z {
      YearsApart(y, z - 1);
      YearStep(z - 1);
    }
  }

  lemma {:induction false} MonthsApart(y: int, m: int, n: int)
    requires 1 <= m < n <= 13
    ensures DaysBeforeMonth(y, n) >= DaysBeforeMonth(y, m) + MonthDays(y)[m - 1]
  {
    MonthStep(y, m);
    if m + 1 < n {
      MonthStep(y, n - 1);
      MonthsApart(y, m, n - 1);
    }
  }

  // Civil times are ordered as their fields are, which makes the day count injective.

  predicate DateBefore(a: Civil, b: Civil)
  {
    a.year < b.year || (a.year == b.year && (a.month < b.month || (a.month == b.month && a.day < b.day)))
  }

  predicate TimeBefore(a: Civil, b: Civil)
  {
    a.hour < b.hour || (a.hour == b.hour && (a.minute < b.minute || (a.minute == b.minute && a.second < b.second)))
  }

  predicate SameDate(a: Civil, b: Civil) { a.year == b.year && a.month == b.month && a.day == b.day }

  predicate CivilBefore(a: Civil, b: Civil) { DateBefore(a, b) || (SameDate(a, b) && TimeBefore(a, b)) }

  lemma {:induction false} DayOfYearBound(c: Civil)
    requires ValidCivil(c)
    ensures DayNumber(c) < DaysBeforeYear(c.year) + DaysBeforeMonth(c.year, c.month) + MonthDays(c.year)[c.month - 1]
    ensures DayNumber(c) < DaysBeforeYear(c.year + 1)
  {
    MonthsApart(c.year, c.month, 13);
    MonthStep(c.year, 12);
    YearStep(c.year);
  }

  lemma {:induction false} DateOrder(a: Civil, b: Civil)
    requires ValidCivil(a) && ValidCivil(b) && DateBefore(a, b)
    ensures DayNumber(a) < DayNumber(b)
  {
    DayOfYearBound(a);
    if a.year < b.year {
      YearsApart(a.year + 1, b.year);
      assert DaysBeforeMonth(b.year, b.month) >= 0;
    } else if a.month < b.month {
      MonthsApart(a.year, a.month, b.month);
    }
  }

  /** Field-by-field order of two valid civil times is the order of their instants. */
  lemma {:induction false} CivilOrder(a: Civil, b: Civil)
    requires ValidCivil(a) && ValidCivil(b)
    ensures CivilBefore(a, b) <==> SecondsOf(a) < SecondsOf(b)
    ensures SecondsOf(a) == SecondsOf(b) ==> a == b
  {
    if DateBefore(a, b) {
      DateOrder(a, b);
    } else if DateBefore(b, a) {
      DateOrder(b, a);
    } else {
      assert SameDate(a, b);
    }
  }

  // The conversion as a function; the method below reaches it with the source's loops.

  function YearAndDay(y: int, d: int): (r: (int, int))
    requires y >= 1970 && d >= 0
    ensures r.0 >= y && 0 <= r.1 < YearDays(r.0)
    ensures DaysBeforeYear(r.0) + r.1 == DaysBeforeYear(y) + d
    decreases d
  {
    YearStep(y);
    if d < YearDays(y) then (y, d) else YearAndDay(y + 1, d - YearDays(y))
  }

  function MonthAndDay(y: int, m: int, d: int): (r: (int, int))
    requires 1 <= m <= 12 && 0 <= d < YearDays(y) - DaysBeforeMonth(y, m)
    ensures m <= r.0 <= 12 && 0 <= r.1 < MonthDays(y)[r.0 - 1]
    ensures DaysBeforeMonth(y, r.0) + r.1 == DaysBeforeMonth(y, m) + d
    decreases 12 - m
  {
    MonthStep(y, m);
    if d < MonthDays(y)[m - 1] then (m, d) else MonthAndDay(y, m + 1, d - MonthDays(y)[m - 1])
  }

  lemma {:induction false} TimeOfDay(rem: int)
    requires 0 <= rem < SECS_PER_DAY
    ensures 0 <= rem / SECS_PER_HOUR < 24
    ensures 0 <= rem % SECS_PER_HOUR / SECS_PER_MIN < 60
    ensures rem == rem / SECS_PER_HOUR * SECS_PER_HOUR + rem % SECS_PER_HOUR / SECS_PER_MIN * SECS_PER_MIN
                   + rem % SECS_PER_HOUR % SECS_PER_MIN
  {
    var hour := rem % SECS_PER_HOUR;
    assert rem == rem / SECS_PER_HOUR * SECS_PER_HOUR + hour;
    assert hour == hour / SECS_PER_MIN * SECS_PER_MIN + hour % SECS_PER_MIN;
  }

  function DateOf(days: nat): (c: Civil)
    ensures ValidCivil(c) && c.hour == c.minute == c.second == 0
    ensures DayNumber(c) == days
  {
    var (y, doy) := YearAndDay(1970, days);
    var (m, dom) := MonthAndDay(y, 1, doy);
    Civil(y, m, dom + 1, 0, 0, 0)
  }

  /** The civil time of an instant: valid, and at exactly that many seconds from the epoch. */
  function CivilOf(secs: u64): (c: Civil)
    ensures ValidCivil(c)
    ensures SecondsOf(c) == secs
  {
    var date := DateOf(secs / SECS_PER_DAY);
    var rem := secs % SECS_PER_DAY;
    TimeOfDay(rem);
    var c := date.(hour := rem / SECS_PER_HOUR, minute := rem % SECS_PER_HOUR / SECS_PER_MIN,
                   second := rem % SECS_PER_HOUR % SECS_PER_MIN);
    assert DayNumber(c) == DayNumber(date);
    c
  }

  /** CivilOf and SecondsOf are inverse bijections between instants and valid civil times. */
  lemma {:induction false} CivilOfInverts(c: Civil)
    requires ValidCivil(c) && SecondsOf(c) < 0x1_0000_0000_0000_0000
    ensures SecondsOf(c) >= 0
    ensures CivilOf(SecondsOf(c)) == c
  {
    YearsApart(1970, c.year);
    assert DaysBeforeMonth(c.year, c.month) >= 0;
    CivilOrder(CivilOf(SecondsOf(c)), c);
  }

  // The text.

  /** One number of the text: its value, its minimum width and the character after it. */
  datatype Piece = Piece(value: nat, width: nat, after: char)

  function Pieces(c: Civil, millis: nat): seq<Piece>
    requires ValidCivil(c)
  {
    [Piece(c.year, 4, '-'), Piece(c.month, 2, '-'), Piece(c.day, 2, 'T'),
     Piece(c.hour, 2, ':'), Piece(c.minute, 2, ':'), Piece(c.second, 2, '.'), Piece(millis, 3, 'Z')]
  }

  function Part(n: nat, width: nat, after: char): string { ZeroPad(n, width) + [after] }

  /** The pieces from index i on, one after another. */
  function Render(ps: seq<Piece>, i: nat): string
    requires i <= |ps|
    decreases |ps| - i
  {
    if i == |ps| then "" else Part(ps[i].value, ps[i].width, ps[i].after) + Render(ps, i + 1)
  }

  /** What the dashboard shows for an instant. */
  function Iso(secs: u64, millis: u32): string { Render(Pieces(CivilOf(secs), millis), 0) }

  /** The layout of ISO 8601: the numbers of the text, their widths and their separators. */
  lemma {:induction false} IsoText(c: Civil, millis: nat)
    requires ValidCivil(c)
    ensures Render(Pieces(c, millis), 0) ==
            Part(c.year, 4, '-') + (Part(c.month, 2, '-') + (Part(c.day, 2, 'T') + (Part(c.hour, 2, ':')
            + (Part(c.minute, 2, ':') + (Part(c.second, 2, '.') + Part(millis, 3, 'Z'))))))
  {
    var ps := Pieces(c, millis);
    assert Render(ps, 6) == Part(millis, 3, 'Z') by { assert Render(ps, 7) == ""; }
    assert Render(ps, 5) == Part(c.second, 2, '.') + Render(ps, 6);
    assert Render(ps, 4) == Part(c.minute, 2, ':') + Render(ps, 5);
    assert Render(ps, 3) == Part(c.hour, 2, ':') + Render(ps, 4);
    assert Render(ps, 2) == Part(c.day, 2, 'T') + Render(ps, 3);
    assert Render(ps, 1) == Part(c.month, 2, '-') + Render(ps, 2);
  }

  /** A day that is not in month m is in a later one of its year. */
  lemma {:induction false} NextMonth(y: int, m: int, d: int)
    requires 1 <= m <= 12 && MonthDays(y)[m - 1] <= d < YearDays(y) - DaysBeforeMonth(y, m)
    ensures m < 12 && d - MonthDays(y)[m - 1] < YearDays(y) - DaysBeforeMonth(y, m + 1)
    ensures MonthAndDay(y, m, d) == MonthAndDay(y, m + 1, d - MonthDays(y)[m - 1])
  {
    MonthStep(y, m);
  }

  lemma {:induction false} CivilFields(secs: u64, y: int, dayOfYear: int, m: int, d: int)
    requires y >= 1970 && 0 <= dayOfYear < YearDays(y) && YearAndDay(1970, secs / SECS_PER_DAY) == (y, dayOfYear)
    requires MonthAndDay(y, 1, dayOfYear) == (m, d)
    ensures var rem := secs % SECS_PER_DAY;
            CivilOf(secs) == Civil(y, m, d + 1, rem / SECS_PER_HOUR, rem % SECS_PER_HOUR / SECS_PER_MIN,
                                   rem % SECS_PER_HOUR % SECS_PER_MIN)
  {
  }

  /** The conversion with the source's two loops. */
  method EpochToIso(secs: u64, millis: u32) returns (text: string)
    ensures text == Iso(secs, millis)
  {
    var days := secs / SECS_PER_DAY;
    var rem := secs % SECS_PER_DAY;
    var hours := rem / SECS_PER_HOUR;
    rem := rem % SECS_PER_HOUR;
    var minutes := rem / SECS_PER_MIN;
    var seconds := rem % SECS_PER_MIN;

    var y := 1970;
    var d := days;
    while true
      invariant y >= 1970 && d >= 0
      invariant YearAndDay(y, d) == YearAndDay(1970, days)
      decreases d
    {
      var yearDays := if IsLeap(y) then 366 else 365;
      if d < yearDays {
        break;
      }
      d := d - yearDays;
      y := y + 1;
    }
    ghost var dayOfYear := d;
    var monthDays := MonthDays(y);
    var m := 1;
    for i := 0 to |monthDays|
      invariant m == i + 1
      invariant 0 <= d < YearDays(y) - DaysBeforeMonth(y, m)
      invariant m <= 12
      invariant MonthAndDay(y, m, d) == MonthAndDay(y, 1, dayOfYear)
    {
      var md := monthDays[i];
      if d < md {
        break;
      }
      NextMonth(y, m, d);
      d := d - md;
      m := m + 1;
    }
    var day := d + 1;

    CivilFields(secs, y, dayOfYear, m, d);
    IsoText(CivilOf(secs), millis);
    text := Part(y, 4, '-') + (Part(m, 2, '-') + (Part(day, 2, 'T') + (Part(hours, 2, ':')
    + (Part(minutes, 2, ':') + (Part(seconds, 2, '.') + Part(millis, 3, 'Z'))))));
  }

  /** Each number of the text: as many digits as its width, then its separator. */
  lemma {:induction false} PartText(n: nat, width: nat, after: char)
    requires width > 0 && n < Pow10(width)
    ensures Part(n, width, after) == Fixed(n, width) + [after]
  {
    ZeroPadIsFixed(n, width);
  }

  // Text order is time order.

  lemma {:induction false} FixedOrder(n: nat, m: nat, w: nat)
    requires n < Pow10(w) && m < Pow10(w)
    ensures LexLess(Fixed(n, w), Fixed(m, w)) <==> n < m
    ensures Fixed(n, w) == Fixed(m, w) ==> n == m
  {
    if w > 0 {
      FixedOrder(n / 10, m / 10, w - 1);
      LexConcat(Fixed(n / 10, w - 1), Fixed(m / 10, w - 1), [DigitChar(n % 10)], [DigitChar(m % 10)]);
      assert Fixed(n, w)[..w - 1] == Fixed(n / 10, w - 1) && Fixed(m, w)[..w - 1] == Fixed(m / 10, w - 1);
      assert Fixed(n, w)[w - 1] == DigitChar(n % 10) && Fixed(m, w)[w - 1] == DigitChar(m % 10);
    }
  }

  predicate Fits(p: Piece) { p.width > 0 && p.value < Pow10(p.width) }

  predicate SameShape(ps: seq<Piece>, qs: seq<Piece>)
  {
    |ps| == |qs| && forall i | 0 <= i < |ps| ::
      Fits(ps[i]) && Fits(qs[i]) && ps[i].width == qs[i].width && ps[i].after == qs[i].after
  }

  /** Numeric lexicographic order of the values, from index i on. */
  predicate ValuesBefore(ps: seq<Piece>, qs: seq<Piece>, i: nat)
    requires i <= |ps| == |qs|
    decreases |ps| - i
  {
    i < |ps| && (ps[i].value < qs[i].value || (ps[i].value == qs[i].value && ValuesBefore(ps, qs, i + 1)))
  }

  function TextLength(ps: seq<Piece>, i: nat): nat
    requires i <= |ps|
    decreases |ps| - i
  {
    if i == |ps| then 0 else ps[i].width + 1 + TextLength(ps, i + 1)
  }

  lemma {:induction false} RenderLength(ps: seq<Piece>, i: nat)
    requires i <= |ps| && forall k | i <= k < |ps| :: Fits(ps[k])
    ensures |Render(ps, i)| == TextLength(ps, i)
    decreases |ps| - i
  {
    if i < |ps| {
      ZeroPadIsFixed(ps[i].value, ps[i].width);
      RenderLength(ps, i + 1);
    }
  }

  /** Text order of equally shaped renderings is the order of their values. */
  lemma {:induction false} RenderOrder(ps: seq<Piece>, qs: seq<Piece>, i: nat)
    requires SameShape(ps, qs) && i <= |ps|
    ensures LexLess(Render(ps, i), Render(qs, i)) <==> ValuesBefore(ps, qs, i)
    ensures Render(ps, i) == Render(qs, i) ==> forall k | i <= k < |ps| :: ps[k].value == qs[k].value
    decreases |ps| - i
  {
    if i < |ps| {
      var p, q := ps[i], qs[i];
      var restP, restQ := Render(ps, i + 1), Render(qs, i + 1);
      RenderOrder(ps, qs, i + 1);
      PartOrder(p, q, restP, restQ);
    }
  }

  lemma {:induction false} PartOrder(p: Piece, q: Piece, s: string, t: string)
    requires Fits(p) && Fits(q) && p.width == q.width && p.after == q.after
    ensures LexLess(Part(p.value, p.width, p.after) + s, Part(q.value, q.width, q.after) + t)
       <==> p.value < q.value || (p.value == q.value && LexLess(s, t))
    ensures Part(p.value, p.width, p.after) + s == Part(q.value, q.width, q.after) + t ==> p.value == q.value && s == t
  {
    var x, y := Part(p.value, p.width, p.after), Part(q.value, q.width, q.after);
    var f, g := Fixed(p.value, p.width), Fixed(q.value, q.width);
    ZeroPadIsFixed(p.value, p.width);
    ZeroPadIsFixed(q.value, q.width);
    FixedOrder(p.value, q.value, p.width);
    LexConcat(f, g, [p.after], [q.after]);
    LexConcat(x, y, s, t);
    assert f == x[..p.width] && g == y[..q.width];
    if x + s == y + t {
      assert x == (x + s)[..|x|] && y == (y + t)[..|y|];
      assert s == (x + s)[|x|..] && t == (y + t)[|y|..];
    }
  }

  lemma {:induction false} Before10000(secs: u64)
    requires secs < YEAR_10000_SECS
    ensures CivilOf(secs).year < 10000
  {
    var c := CivilOf(secs);
    assert DaysBeforeYear(10000) * SECS_PER_DAY == YEAR_10000_SECS;
    assert DaysBeforeMonth(c.year, c.month) >= 0;
    if c.year >= 10000 {
      YearsApart(10000, c.year);
      assert false;
    }
  }

  lemma {:induction false} PiecesFit(c: Civil, millis: nat)
    requires ValidCivil(c) && c.year < 10000 && millis < 1000
    ensures forall i | 0 <= i < 7 :: Fits(Pieces(c, millis)[i])
    ensures TextLength(Pieces(c, millis), 0) == 24
  {
    var ps := Pieces(c, millis);
    assert Pow10(1) == 10 && Pow10(2) == 100 && Pow10(3) == 1000 && Pow10(4) == 10000;
    assert TextLength(ps, 6) == 4 && TextLength(ps, 4) == 10 && TextLength(ps, 2) == 16;
  }

  lemma {:induction false} PiecesOrder(a: Civil, m: nat, b: Civil, n: nat)
    requires ValidCivil(a) && ValidCivil(b)
    ensures ValuesBefore(Pieces(a, m), Pieces(b, n), 0) <==> CivilBefore(a, b) || (a == b && m < n)
  {
    var ps, qs := Pieces(a, m), Pieces(b, n);
    assert ValuesBefore(ps, qs, 6) <==> m < n;
    assert ValuesBefore(ps, qs, 5) <==> a.second < b.second || (a.second == b.second && m < n);
    assert ValuesBefore(ps, qs, 4) <==> a.minute < b.minute || (a.minute == b.minute && ValuesBefore(ps, qs, 5));
    assert ValuesBefore(ps, qs, 3) <==> a.hour < b.hour || (a.hour == b.hour && ValuesBefore(ps, qs, 4));
    assert ValuesBefore(ps, qs, 2) <==> a.day < b.day || (a.day == b.day && ValuesBefore(ps, qs, 3));
    assert ValuesBefore(ps, qs, 1) <==> a.month < b.month || (a.month == b.month && ValuesBefore(ps, qs, 2));
  }

  lemma {:induction false} SamePieces(a: Civil, m: nat, b: Civil, n: nat)
    requires ValidCivil(a) && ValidCivil(b)
    requires forall k | 0 <= k < 7 :: Pieces(a, m)[k].value == Pieces(b, n)[k].value
    ensures a == b && m == n
  {
    var ps, qs := Pieces(a, m), Pieces(b, n);
    assert ps[0].value == qs[0].value && ps[1].value == qs[1].value && ps[2].value == qs[2].value;
    assert ps[3].value == qs[3].value && ps[4].value == qs[4].value && ps[5].value == qs[5].value;
    assert ps[6].value == qs[6].value;
  }

  /** Text order of civil times of four-digit years is field order. */
  lemma {:induction false} TextOrder(a: Civil, m: nat, b: Civil, n: nat)
    requires ValidCivil(a) && ValidCivil(b) && a.year < 10000 && b.year < 10000 && m < 1000 && n < 1000
    ensures |Render(Pieces(a, m), 0)| == 24
    ensures LexLess(Render(Pieces(a, m), 0), Render(Pieces(b, n), 0)) <==> CivilBefore(a, b) || (a == b && m < n)
    ensures Render(Pieces(a, m), 0) == Render(Pieces(b, n), 0) ==> a == b && m == n
  {
    var ps, qs := Pieces(a, m), Pieces(b, n);
    PiecesFit(a, m);
    PiecesFit(b, n);
    RenderLength(ps, 0);
    RenderOrder(ps, qs, 0);
    PiecesOrder(a, m, b, n);
    if Render(ps, 0) == Render(qs, 0) {
      SamePieces(a, m, b, n);
    }
  }

  /** Before year 10000 the text has 24 characters and sorts exactly as the instants do. */
  lemma {:induction false} IsoOrder(s: u64, m: u32, t: u64, n: u32)
    requires s < YEAR_10000_SECS && t < YEAR_10000_SECS && m < 1000 && n < 1000
    ensures |Iso(s, m)| == 24
    ensures LexLess(Iso(s, m), Iso(t, n)) <==> s < t || (s == t && m < n)
    ensures Iso(s, m) == Iso(t, n) ==> s == t && m == n
  {
    Before10000(s);
    Before10000(t);
    TextOrder(CivilOf(s), m, CivilOf(t), n);
    CivilOrder(CivilOf(s), CivilOf(t));
  }
}
