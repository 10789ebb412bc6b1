/** Time buckets. The program divides toward zero, splits times into milliseconds and
    microseconds of mixed sign, and lets a calendar add the units; all of it has to come
    down to a bucket that starts at or before the time. The calendar stands for UTC, where
    units up to days have a fixed length. */
module TimeBucket {
  import opened Wrappers
  import opened Arithmetic

  const MICROS_PER_MSEC := 1000
  const MSECS_PER_DAY := 86400000
  const MICROS_PER_DAY := 86400000000
  const INT32_MAX := 2147483647
  const INT32_MIN := -2147483648
  const INT64_MAX := 9223372036854775807

  // ---- division as the program does it ----

  /** Toward zero. */
  function Div(a: int, b: int): int
    requires b > 0
  {
    if a >= 0 then a / b else -((-a) / b)
  }

  function Rem(a: int, b: int): (r: int)
    requires b > 0
    ensures a == Div(a, b) * b + r && -b < r < b && (r > 0 ==> a > 0) && (r < 0 ==> a < 0)
  {
    DivRem(a, b);
    a - Div(a, b) * b
  }

  lemma DivRem(a: int, b: int)
    requires b > 0
    ensures var r := a - Div(a, b) * b; -b < r < b && (r > 0 ==> a > 0) && (r < 0 ==> a < 0)
  {
    var n := if a >= 0 then a else -a;
    Split(n, b);
    RemFrom(a, b, n / b, n % b, Div(a, b));
  }

  lemma RemFrom(a: int, b: int, q: int, rest: int, d: int)
    requires (if a >= 0 then a else -a) == q * b + rest && 0 <= rest < b && d == if a >= 0 then q else -q
    ensures var r := a - d * b; -b < r < b && (r > 0 ==> a > 0) && (r < 0 ==> a < 0)
  {
    Multiple(q, b);
  }

  lemma Multiple(k: int, p: int)
    ensures (-k) * p == -(k * p)
    ensures (k + 1) * p == k * p + p && (-(k + 1)) * p == -(k * p) - p
    ensures (k + 2) * p == k * p + 2 * p && (-(k + 2)) * p == -(k * p) - 2 * p
  {
  }

  // ---- what a bucket is ----

  /** A bucket starts at or before the time and ends after it; buckets lie end to end from
      the origin on. */
  predicate IsBucket(b: int, ts: int, origin: int, width: int)
    requires width > 0
  {
    b <= ts < b + width && (b - origin) % width == 0
  }

  function Floor(ts: int, origin: int, width: int): int
    requires width > 0
  {
    origin + ((ts - origin) / width) * width
  }

  lemma Exact(k: int, width: int)
    requires width > 0
    ensures (k * width) % width == 0 && (k * width) / width == k
  {
    Divide(k * width, width, k, 0);
  }

  lemma FloorIsBucket(ts: int, origin: int, width: int)
    requires width > 0
    ensures IsBucket(Floor(ts, origin, width), ts, origin, width)
  {
    Exact((ts - origin) / width, width);
  }

  /** There is only one bucket for a time. */
  lemma OnlyOneBucket(b: int, ts: int, origin: int, width: int)
    requires width > 0 && IsBucket(b, ts, origin, width)
    ensures b == Floor(ts, origin, width)
  {
    var k := (b - origin) / width;
    assert b - origin == k * width;
    Divide(ts - origin, width, k, ts - b);
  }

  // ---- the calendar ----

  class Calendar {
    var time: int      // milliseconds

    constructor () { time := 0; }

    method SetTime(millis: int)
      modifies this
      ensures time == millis
    {
      time := millis;
    }

    /** Amounts have 32 bits. */
    method Add(unit: int, amount: int)
      requires INT32_MIN <= amount <= INT32_MAX
      modifies this
      ensures time == old(time) + unit * amount
    {
      time := time + unit * amount;
    }

    /** Whole units from the calendar's time to another, toward zero. */
    method FieldDifference(when: int, unit: int) returns (r: int)
      requires unit > 0
      ensures TowardZero(when - time, unit, r)
    {
      r := Div(when - time, unit);
      DivRem(when - time, unit);
    }
  }

  /** So many whole units, and less than one unit more, on the same side of zero. */
  predicate TowardZero(distance: int, unit: int, r: int) {
    && (distance >= 0 ==> 0 <= r * unit <= distance < r * unit + unit)
    && (distance <= 0 ==> 0 >= r * unit >= distance > r * unit - unit)
  }

  /** There is only one such number. */
  lemma OnlyOneQuotient(distance: int, unit: int, r: int)
    requires unit > 0 && TowardZero(distance, unit, r)
    ensures r == Div(distance, unit)
  {
    Multiple(r, unit);
    if distance >= 0 {
      Divide(distance, unit, r, distance - r * unit);
    } else {
      Divide(-distance, unit, -r, r * unit - distance);
    }
  }

  const HOUR := 3600000

  /** Hours may not fit into 32 bits, so they are added in portions. */
  method CalendarAddHour(calendar: Calendar, hours: int)
    modifies calendar
    ensures calendar.time == old(calendar.time) + HOUR * hours
  {
    var left := hours;
    if left >= 0 {
      while left > 0
        invariant calendar.time + HOUR * (if left > 0 then left else 0) == old(calendar.time) + HOUR * hours
      {
        calendar.Add(HOUR, if left > INT32_MAX then INT32_MAX else left);
        left := left - INT32_MAX;
      }
    } else {
      while left < 0
        invariant calendar.time + HOUR * (if left < 0 then left else 0) == old(calendar.time) + HOUR * hours
        decreases -left
      {
        calendar.Add(HOUR, if left < INT32_MIN then INT32_MIN else left);
        left := left - INT32_MIN;
      }
    }
  }

  /** An interval of days and microseconds is added exactly, through milliseconds, carries
      of either sign and the units of the calendar. */
  method AddInterval(calendar: Calendar, timestamp: int, days: int, micros: int) returns (r: int)
    requires INT32_MIN <= days <= INT32_MAX
    modifies calendar
    ensures r == timestamp + days * MICROS_PER_DAY + micros
  {
    hide Div;
    var millis := Div(timestamp, MICROS_PER_MSEC);
    var rest := Rem(timestamp, MICROS_PER_MSEC);
    rest := rest + Rem(micros, MICROS_PER_MSEC);
    if rest >= MICROS_PER_MSEC {
      rest, millis := rest - MICROS_PER_MSEC, millis + 1;
    } else if rest < 0 {
      rest, millis := rest + MICROS_PER_MSEC, millis - 1;
    }
    calendar.SetTime(millis);
    var h := Div(micros, MICROS_PER_MSEC);
    var ms := Rem(h, 1000);
    h := Div(h, 1000);
    var s := Rem(h, 60);
    h := Div(h, 60);
    var m := Rem(h, 60);
    h := Div(h, 60);
    if days < 0 || micros < 0 {
      calendar.Add(1, ms);
      calendar.Add(1000, s);
      calendar.Add(60000, m);
      CalendarAddHour(calendar, h);
      calendar.Add(MSECS_PER_DAY, days);
    } else {
      calendar.Add(MSECS_PER_DAY, days);
      CalendarAddHour(calendar, h);
      calendar.Add(60000, m);
      calendar.Add(1000, s);
      calendar.Add(1, ms);
    }
    r := calendar.time * MICROS_PER_MSEC + rest;
  }

  // ---- buckets of microseconds ----

  lemma Toward(d: int, width: int)
    requires width > 0
    ensures Div(d, width) * width - (if d < 0 && Rem(d, width) != 0 then width else 0) == (d / width) * width
  {
    var q := Div(d, width);
    if d < 0 && Rem(d, width) != 0 {
      assert (q - 1) * width == q * width - width;
      Divide(d, width, q - 1, d - (q - 1) * width);
    } else {
      Divide(d, width, q, Rem(d, width));
    }
  }

  /** For every time, origin and positive width the result is the bucket of the time. */
  method MicrosBucket(calendar: Calendar, width: int, ts: int, origin: int) returns (b: int)
    requires width > 0
    modifies calendar
    ensures b == Floor(ts, origin, width) && IsBucket(b, ts, origin, width)
  {
    hide Div;
    var d := ts - origin;
    var result := Div(d, width) * width;
    if d < 0 && Rem(d, width) != 0 {
      result := result - width;
    }
    Toward(d, width);
    b := AddInterval(calendar, origin, 0, result);
    FloorIsBucket(ts, origin, width);
  }

  // ---- buckets of days ----

  lemma DivNegative(a: int, b: int)
    requires b > 0 && a <= 0
    ensures Div(a, b) == -((-a) / b) <= 0
  {
  }

  lemma DivNested(a: int, b: int, c: int)
    requires b > 0 && c > 0
    ensures c * b > 0 && Div(Div(a, b), c) == Div(a, c * b)
  {
    Multiples(c, 1, b);
    if a >= 0 {
      QuotientNested(a, b, c);
    } else {
      hide Div;
      QuotientNested(-a, b, c);
      DivNegative(a, b);
      DivNegative(Div(a, b), c);
      DivNegative(a, c * b);
    }
  }

  lemma QuotientNested(a: nat, b: int, c: int)
    requires b > 0 && c > 0 && c * b > 0
    ensures (a / b) / c == a / (c * b)
  {
    var q, r := a / b, a % b;
    var k, t := q / c, q % c;
    assert a == (k * c + t) * b + r;
    assert (k * c + t) * b == k * (c * b) + t * b;
    Multiples(t, c, b);
    Divide(a, c * b, k, t * b + r);
  }

  /** Milliseconds from the origin to the time, as the calendar sees them. */
  function Millis(ts: int, origin: int): int {
    Div(ts, MICROS_PER_MSEC) - origin / MICROS_PER_MSEC
  }

  /** How far off they are. */
  lemma Off(ts: int, origin: int)
    ensures var e := 1000 * Millis(ts, origin) - (ts - origin);
      && (ts >= 0 ==> -1000 < e < 1000)
      && (ts < 0 ==> origin % 1000 <= e <= 999 + origin % 1000 && (e - origin % 1000 + ts) % 1000 == 0)
  {
    if ts < 0 {
      var up := -Div(ts, 1000);
      assert up == (-ts) / 1000;
      assert 1000 * Millis(ts, origin) - (ts - origin) - origin % 1000 + ts == -1000 * up;
      Divide(-1000 * up, 1000, -up, 0);
    }
  }

  /** The time is negative, and lies less than the origin's microseconds below the start of
      a bucket. */
  predicate JustBelow(ts: int, origin: int, width: int)
    requires width > 0
  {
    ts < 0 && origin - ts >= width && 1 <= (origin - ts) % width < origin % MICROS_PER_MSEC
  }

  /** The quotient the program starts from, for buckets of `p` milliseconds: the right one,
      or one too many, or two too many. */
  lemma Quotient(ts: int, origin: int, p: int)
    requires p >= 2
    ensures var k, j := (ts - origin) / (1000 * p), Div(Millis(ts, origin), p);
      (j == k || j == k + 1 || j == k + 2) && (j == k + 2 <==> JustBelow(ts, origin, 1000 * p))
  {
    hide Div;
    var w, u := 1000 * p, ts - origin;
    var k, rr := u / w, u % w;
    var d := Millis(ts, origin);
    var e := 1000 * d - u;
    Off(ts, origin);
    var x := d - k * p;
    assert k * w == 1000 * (k * p);
    assert 1000 * x == rr + e;
    assert 0 <= x <= p + 1;
    Rounds(d, p, k, x);
    TwoTooMany(ts, origin, p, k, rr, d, e, x);
  }

  lemma Rounds(d: int, p: int, k: int, x: int)
    requires p >= 2 && d == k * p + x && 0 <= x <= p + 1
    ensures var j := Div(d, p);
      && (j == k || j == k + 1 || j == k + 2) && (j == k + 2 <==> d < 0 && x == p + 1)
      && (j == k <==> if d >= 0 then x < p else x == 0)
  {
    Multiple(k, p);
    if d >= 0 {
      if x < p {
        Divide(d, p, k, x);
      } else {
        Divide(d, p, k + 1, x - p);
      }
    } else if x == 0 {
      Divide(-d, p, -k, 0);
    } else if x <= p {
      Divide(-d, p, -(k + 1), p - x);
    } else {
      Divide(-d, p, -(k + 2), 2 * p - x);
    }
  }

  lemma TwoTooMany(ts: int, origin: int, p: int, k: int, rr: int, d: int, e: int, x: int)
    requires p >= 2 && ts - origin == 1000 * (k * p) + rr && 0 <= rr < 1000 * p
    requires d == k * p + x && 1000 * x == rr + e && 0 <= x <= p + 1
    requires ts >= 0 ==> -1000 < e < 1000
    requires ts < 0 ==> origin % 1000 <= e <= 999 + origin % 1000 && (e - origin % 1000 + ts) % 1000 == 0
    ensures d < 0 && x == p + 1 <==> JustBelow(ts, origin, 1000 * p)
  {
    var w, f, kp := 1000 * p, origin % 1000, k * p;
    Below(origin - ts, w, k, kp, p, rr);
    LastStep(kp, p, k);
    if JustBelow(ts, origin, w) {
      SameRest(ts, origin, kp, p, e, w - rr);
    }
  }

  /** The distance below the next bucket. */
  lemma Below(n: int, w: int, k: int, kp: int, p: int, rr: int)
    requires p >= 2 && w == 1000 * p && kp == k * p && n == -1000 * kp - rr && 0 <= rr < w
    ensures n % w == if rr > 0 then w - rr else 0
  {
    assert k * w == 1000 * kp;
    Multiple(k, w);
    if rr > 0 {
      Divide(n, w, -(k + 1), w - rr);
    } else {
      Divide(n, w, -k, 0);
    }
  }

  lemma LastStep(kp: int, p: int, k: int)
    requires p >= 2 && kp == k * p
    ensures kp + p + 1 < 0 <==> kp <= -2 * p
    ensures kp <= -2 * p || kp >= -p
  {
    if k <= -2 {
      assert (-2 - k) * p >= 0;
    } else {
      assert (k + 1) * p >= 0;
    }
  }

  lemma SameRest(ts: int, origin: int, kp: int, p: int, e: int, r: int)
    requires ts - origin == 1000 * kp + 1000 * p - r && (e - origin % 1000 + ts) % 1000 == 0
    ensures (e - r) % 1000 == 0
  {
    var a := (e - origin % 1000 + ts) / 1000;
    Divide(e - r, 1000, a - kp - p - origin / 1000, 0);
  }

  // ---- the assertions on the way ----

  /** How far cutting off the microseconds toward zero moves a time up. */
  function Ahead(ts: int): int {
    if ts >= 0 then -(ts % MICROS_PER_MSEC) else (-ts) % MICROS_PER_MSEC
  }

  /** The time is on or after the origin, and the milliseconds seen already reach the next
      bucket. */
  predicate SeenLate(ts: int, origin: int, width: int)
    requires width > 0
  {
    origin <= ts && width - (ts - origin) % width <= origin % MICROS_PER_MSEC + Ahead(ts)
  }

  /** The time is negative, and is the start of a bucket before the origin or lies less than
      the origin's microseconds below it. */
  predicate AtOrBelow(ts: int, origin: int, width: int)
    requires width > 0
  {
    ts < 0 && origin - ts >= width && (origin - ts) % width < origin % MICROS_PER_MSEC
  }

  lemma MillisError(ts: int, origin: int)
    ensures 1000 * Millis(ts, origin) - (ts - origin) == origin % 1000 + Ahead(ts)
  {
  }

  /** When a step back is needed, the time is before the origin and behind the bucket,
      except for these times. */
  lemma Assertions(ts: int, origin: int, p: int)
    requires p >= 2
    ensures var k, j := (ts - origin) / (1000 * p), Div(Millis(ts, origin), p);
      (j == k || (j == k + 1 && ts < origin && (ts - origin) % (1000 * p) > 0)) <==>
      !SeenLate(ts, origin, 1000 * p) && !AtOrBelow(ts, origin, 1000 * p)
  {
    hide Div, Millis, Ahead, JustBelow;
    var w, u := 1000 * p, ts - origin;
    var k, rr := u / w, u % w;
    var d := Millis(ts, origin);
    var e := 1000 * d - u;
    Off(ts, origin);
    MillisError(ts, origin);
    var x := d - k * p;
    Split(u, w);
    assert k * w == 1000 * (k * p);
    assert 1000 * x == rr + e;
    Rounds(d, p, k, x);
    Quotient(ts, origin, p);
    Below(origin - ts, w, k, k * p, p, rr);
    if ts >= origin {
      AfterOrigin(u, w, k, rr, p);
    } else {
      BeforeOrigin(ts, origin, p, k, k * p, rr, d, e, x);
      BelowOrAt(ts, origin, w, rr);
    }
  }

  lemma AfterOrigin(u: int, w: int, k: int, rr: int, p: int)
    requires u == k * w + rr && 0 <= rr < w && u >= 0 && p > 0
    ensures k >= 0 && k * p >= 0
  {
    Multiples(k, 0, w);
    Multiples(k, 0, p);
  }

  /** On the start of a bucket before the origin. */
  lemma BeforeOrigin(ts: int, origin: int, p: int, k: int, kp: int, rr: int, d: int, e: int, x: int)
    requires p >= 2 && kp == k * p && ts - origin == 1000 * kp + rr && 0 <= rr < 1000 * p && ts < origin
    requires d == kp + x && 1000 * x == rr + e
    requires ts >= 0 ==> -1000 < e < 1000
    requires ts < 0 ==> origin % 1000 <= e <= 999 + origin % 1000
    ensures rr == 0 ==> d < 0 && origin - ts >= 1000 * p && (x == 0 <==> !(ts < 0 && origin % 1000 > 0))
    ensures kp <= -p
  {
    Multiples(k, 0, p);
    Multiples(k, -1, p);
  }

  /** Just below the start of a bucket, or on it. */
  lemma BelowOrAt(ts: int, origin: int, w: int, rr: int)
    requires 0 <= rr < w && (origin - ts) % w == if rr > 0 then w - rr else 0
    requires rr == 0 ==> origin - ts >= w
    ensures AtOrBelow(ts, origin, w) <==>
      JustBelow(ts, origin, w) || (rr == 0 && ts < 0 && origin % MICROS_PER_MSEC > 0)
  {
  }

  /** From an origin on a whole millisecond it is a negative time on or after the origin, in
      the last millisecond of a bucket. */
  lemma AlignedAssertions(ts: int, origin: int, p: int)
    requires p >= 2 && origin % 1000 == 0
    ensures !AtOrBelow(ts, origin, 1000 * p)
    ensures SeenLate(ts, origin, 1000 * p) <==> LastInBucket(ts, origin, 1000 * p)
  {
    var w, u := 1000 * p, ts - origin;
    var k, rr := u / w, u % w;
    Split(u, w);
    assert k * w == 1000 * (k * p);
    LastMillisecond(ts, origin, k * p, p, rr);
  }

  lemma LastMillisecond(ts: int, origin: int, kp: int, p: int, rr: int)
    requires origin % 1000 == 0 && ts - origin == 1000 * kp + rr && 0 <= rr < 1000 * p
    ensures 1000 * p - rr <= Ahead(ts) <==> ts < 0 && rr > 1000 * p - 1000
  {
    if ts < 0 {
      var up := (-ts) / 1000;
      Split(-ts, 1000);
      Split(origin, 1000);
      var m := p + kp + origin / 1000 + up;
      assert 1000 * p - rr == 1000 * m + (-ts) % 1000;
    }
  }

  /** The bucket of a number of days. It is right exactly if the time is not just below a
      boundary, and else it is the next one; if the origin lies on a whole millisecond, as the
      default one does, it is always right. The two assertions on the way hold exactly if the
      time is neither seen late nor at or just below a boundary before the origin; from an
      origin on a whole millisecond, exactly if it is not a negative time on or after the
      origin in the last millisecond of a bucket. */
  method DayBucket(calendar: Calendar, width: int, ts: int, origin: int) returns (b: Option<int>, ghost asserted: bool)
    requires 0 < width <= INT32_MAX
    modifies calendar
    ensures b.None? <==> !InRange(ts, origin, width)
    ensures b.Some? ==>
      (IsBucket(b.value, ts, origin, width * MICROS_PER_DAY) <==> !JustBelow(ts, origin, width * MICROS_PER_DAY))
    ensures b.Some? && JustBelow(ts, origin, width * MICROS_PER_DAY) ==>
      b.value == Floor(ts, origin, width * MICROS_PER_DAY) + width * MICROS_PER_DAY
    ensures b.Some? && origin % MICROS_PER_MSEC == 0 ==> IsBucket(b.value, ts, origin, width * MICROS_PER_DAY)
    ensures b.Some? ==>
      (asserted <==> !SeenLate(ts, origin, width * MICROS_PER_DAY) && !AtOrBelow(ts, origin, width * MICROS_PER_DAY))
    ensures b.Some? && origin % MICROS_PER_MSEC == 0 ==>
      (asserted <==> !LastInBucket(ts, origin, width * MICROS_PER_DAY))
    ensures origin % MICROS_PER_MSEC == 0 && origin >= 0 ==> asserted
  {
    hide Div, IsBucket, JustBelow, Floor, TowardZero, SeenLate, AtOrBelow;
    asserted := true;
    var start := Div(origin, MICROS_PER_MSEC);
    if Rem(origin, MICROS_PER_MSEC) < 0 {
      start := start - 1;
    }
    FloorMillis(origin, start);
    calendar.SetTime(start);
    var days := calendar.FieldDifference(Div(ts, MICROS_PER_MSEC), MSECS_PER_DAY);
    OnlyOneQuotient(Millis(ts, origin), MSECS_PER_DAY, days);
    var result := Div(days, width) * width;
    DivNested(Millis(ts, origin), MSECS_PER_DAY, width);
    if result < INT32_MIN || result > INT32_MAX {
      return None, true;
    }
    var bucket := AddInterval(calendar, origin, result, 0);
    if ts < bucket {
      ghost var first := ts < origin;
      bucket := AddInterval(calendar, bucket, -width, 0);
      asserted := first && ts > bucket;
    }
    DayBucketRight(ts, origin, width, bucket, asserted);
    b := Some(bucket);
  }

  /** The number of days has 32 bits. */
  predicate InRange(ts: int, origin: int, width: int)
    requires width > 0
  {
    INT32_MIN <= Div(Millis(ts, origin), width * MSECS_PER_DAY) * width <= INT32_MAX
  }

  /** A negative time on or after the origin, in the last millisecond of a bucket. */
  predicate LastInBucket(ts: int, origin: int, width: int)
    requires width > 0
  {
    origin <= ts < 0 && (ts - origin) % width > width - MICROS_PER_MSEC
  }

  lemma FloorMillis(origin: int, start: int)
    requires start == Div(origin, 1000) - if Rem(origin, 1000) < 0 then 1 else 0
    ensures start == origin / 1000
  {
    Divide(origin, 1000, start, origin - start * 1000);
  }

  lemma DayBucketRight(ts: int, origin: int, width: int, b: int, asserted: bool)
    requires width > 0
    requires var first := origin + Div(Millis(ts, origin), width * MSECS_PER_DAY) * width * MICROS_PER_DAY;
      && b == (if ts < first then first - width * MICROS_PER_DAY else first)
      && asserted == (ts < first ==> ts < origin && ts > b)
    ensures IsBucket(b, ts, origin, width * MICROS_PER_DAY) <==> !JustBelow(ts, origin, width * MICROS_PER_DAY)
    ensures JustBelow(ts, origin, width * MICROS_PER_DAY) ==>
      b == Floor(ts, origin, width * MICROS_PER_DAY) + width * MICROS_PER_DAY
    ensures origin % MICROS_PER_MSEC == 0 ==> IsBucket(b, ts, origin, width * MICROS_PER_DAY)
    ensures asserted <==>
      !SeenLate(ts, origin, width * MICROS_PER_DAY) && !AtOrBelow(ts, origin, width * MICROS_PER_DAY)
    ensures origin % MICROS_PER_MSEC == 0 ==> (asserted <==> !LastInBucket(ts, origin, width * MICROS_PER_DAY))
  {
    hide Div, Millis, IsBucket, JustBelow, Floor, SeenLate, AtOrBelow, LastInBucket;
    var p := width * MSECS_PER_DAY;
    var w := 1000 * p;
    assert w == width * MICROS_PER_DAY;
    var k, j := (ts - origin) / w, Div(Millis(ts, origin), p);
    assert j * width * MICROS_PER_DAY == j * w;
    Quotient(ts, origin, p);
    StepBack(ts, origin, w, k, j, b);
    Assertions(ts, origin, p);
    FloorIsBucket(ts, origin, w);
    if IsBucket(b, ts, origin, w) {
      OnlyOneBucket(b, ts, origin, w);
    }
    if origin % MICROS_PER_MSEC == 0 {
      AlignedAssertions(ts, origin, p);
      NotBelow(ts, origin, w);
    }
  }

  /** One step back is enough, unless the quotient was two too many. */
  lemma StepBack(ts: int, origin: int, w: int, k: int, j: int, b: int)
    requires w > 0 && k == (ts - origin) / w && (j == k || j == k + 1 || j == k + 2)
    requires b == if ts < origin + j * w then origin + j * w - w else origin + j * w
    ensures b == Floor(ts, origin, w) <==> j != k + 2
    ensures j == k + 2 ==> b == Floor(ts, origin, w) + w
    ensures ts < origin + j * w <==> j != k
    ensures j == k + 1 ==> (ts > b <==> (ts - origin) % w > 0)
    ensures j == k + 2 ==> ts < b
  {
    var rest := (ts - origin) % w;
    assert ts - origin == k * w + rest;
    Multiple(k, w);
  }

  lemma NotBelow(ts: int, origin: int, w: int)
    requires w > 0 && origin % MICROS_PER_MSEC == 0
    ensures !JustBelow(ts, origin, w)
  {
  }

  /** The default origin, 10959 days after the epoch, is on a whole millisecond. */
  lemma DefaultOrigin()
    ensures (10959 * MICROS_PER_DAY) % MICROS_PER_MSEC == 0 && 10959 * MICROS_PER_DAY >= 0
  {
  }

  /** One microsecond below the last boundary at which a negative time is a whole bucket or
      more before the origin. */
  function FailingTime(origin: int, width: int): int
    requires width > 0
  {
    var w := width * MICROS_PER_DAY;
    origin - ((if origin >= 0 then origin / w else 0) + 1) * w - 1
  }

  /** For every origin that is two microseconds or more behind a whole millisecond, and every
      width, this time is just below a boundary; and if the origin has 64 bits, in range. */
  lemma OriginFails(origin: int, width: int)
    requires width > 0 && origin % MICROS_PER_MSEC >= 2
    ensures var ts, w := FailingTime(origin, width), width * MICROS_PER_DAY;
      && JustBelow(ts, origin, w) && (origin <= INT64_MAX ==> InRange(ts, origin, width))
      && (if origin >= 0 then 0 else origin) - w - 1 <= ts < 0
  {
    hide Div, Millis;
    var ts, w, p := FailingTime(origin, width), width * MICROS_PER_DAY, width * MSECS_PER_DAY;
    assert w == 1000 * p;
    var q := if origin >= 0 then origin / w else 0;
    Split(origin, w);
    var n := q + 1;
    Distribute(q, 1, w);
    Divide(origin - ts, w, n, 1);
    Multiple(n, w);
    Divide(ts - origin, w, -(n + 1), w - 1);
    Quotient(ts, origin, p);
    assert Div(Millis(ts, origin), p) == -q;
    if origin <= INT64_MAX {
      DaysFit(origin, q, width);
    }
  }

  lemma DaysFit(origin: int, q: int, width: int)
    requires q >= 0 && width > 0 && origin <= INT64_MAX && (q == 0 || q * (width * MICROS_PER_DAY) <= origin)
    ensures INT32_MIN <= (-q) * width <= 0
  {
    NaturalProduct(q, width);
    assert q * (width * MICROS_PER_DAY) == (q * width) * MICROS_PER_DAY;
    assert (-q) * width == -(q * width);
  }

  /** The bucket that is returned for it starts after it. */
  method LateBucket(calendar: Calendar, width: int, origin: int) returns (ts: int, b: int)
    requires 0 < width <= INT32_MAX && origin <= INT64_MAX && origin % MICROS_PER_MSEC >= 2
    modifies calendar
    ensures b > ts && b == Floor(ts, origin, width * MICROS_PER_DAY) + width * MICROS_PER_DAY
    ensures (if origin >= 0 then 0 else origin) - width * MICROS_PER_DAY - 1 <= ts < 0
  {
    hide JustBelow, InRange, FailingTime, Floor, IsBucket, SeenLate, AtOrBelow, LastInBucket;
    ts := FailingTime(origin, width);
    OriginFails(origin, width);
    var r, _ := DayBucket(calendar, width, ts, origin);
    b := r.value;
    BucketEnds(ts, origin, width * MICROS_PER_DAY);
  }

  lemma BucketEnds(ts: int, origin: int, w: int)
    requires w > 0
    ensures ts < Floor(ts, origin, w) + w
  {
    Split(ts - origin, w);
  }

  /** From an origin on a whole millisecond, a bucket or more before the epoch, the first
      assertion fails for the last microsecond of the first bucket. */
  lemma AssertionFails(origin: int, width: int)
    requires 0 < width <= INT32_MAX && origin % MICROS_PER_MSEC == 0 && origin <= -(width * MICROS_PER_DAY)
    ensures var ts, w := origin + width * MICROS_PER_DAY - 1, width * MICROS_PER_DAY;
      LastInBucket(ts, origin, w) && InRange(ts, origin, width)
  {
    hide Div, Millis;
    var w, p := width * MICROS_PER_DAY, width * MSECS_PER_DAY;
    assert w == 1000 * p;
    var ts := origin + w - 1;
    Divide(ts - origin, w, 0, w - 1);
    Quotient(ts, origin, p);
    var j := Div(Millis(ts, origin), p);
    assert j == 0 || j == 1;
  }

  /** From any later origin on a whole millisecond it fails at no time. */
  lemma NoAssertionFails(ts: int, origin: int, width: int)
    requires width > 0 && origin % MICROS_PER_MSEC == 0 && origin > -(width * MICROS_PER_DAY)
    ensures !LastInBucket(ts, origin, width * MICROS_PER_DAY)
  {
    var w := width * MICROS_PER_DAY;
    if origin <= ts < 0 {
      Divide(ts - origin, w, 0, ts - origin);
      assert w == 1000 * (width * MSECS_PER_DAY);
      Split(origin, 1000);
      BehindOneBucket(origin, origin / 1000, width * MSECS_PER_DAY);
    }
  }

  lemma BehindOneBucket(origin: int, m: int, p: int)
    requires origin == m * 1000 && origin > -(1000 * p)
    ensures origin >= 1000 - 1000 * p
  {
  }
}
