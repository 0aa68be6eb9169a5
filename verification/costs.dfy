/** The arithmetic of one attribution row: Python's `round(x, 2)`, the
    `seconds` field of a `timedelta`, and the byte and price figures. */
module Costs {
  import opened Common

  /** Price of one terabyte of analysis in Turkish lira, as configured. */
  const DefaultTryPerTerabyte: real := 98.43

  const MicrosPerSecond: int := 1_000_000
  const SecondsPerDay: int := 86400

  function Abs(x: real): real
  {
    if x < 0.0 then -x else x
  }

  /** `round(x, 2)` on exact rationals: the nearest multiple of 0.01, a tie
      going to the even multiple. */
  function Round2(x: real): (r: real)
    ensures Abs(r - x) <= 0.005
    ensures x >= 0.0 ==> r >= 0.0
  {
    Round2Steps(x) as real / 100.0
  }

  /** The multiple of 0.01, counted in hundredths, that `Round2` picks. */
  function Round2Steps(x: real): int
  {
    var y := x * 100.0;
    var f := y.Floor;
    var frac := y - f as real;
    if frac < 0.5 then f else if frac > 0.5 then f + 1 else if f % 2 == 0 then f else f + 1
  }

  /** The rounded value lies on the 0.01 grid. */
  lemma Round2OnGridResult(x: real)
    ensures (Round2(x) * 100.0).Floor as real == Round2(x) * 100.0
  {
    var k := Round2Steps(x);
    assert Round2(x) == k as real / 100.0;
    assert Round2(x) * 100.0 == k as real;
    assert (k as real).Floor == k;
  }

  /** No multiple of 0.01 is closer to `x` than `Round2(x)`. */
  lemma Round2Nearest(x: real, m: int)
    ensures Abs(Round2(x) - x) <= Abs(m as real / 100.0 - x)
  {
    var y := x * 100.0;
    var f := y.Floor;
    assert f as real <= y < f as real + 1.0;
    if m <= f - 1 || m >= f + 2 {
      assert Abs(m as real - y) >= 1.0;
    }
  }

  /** A value exactly halfway between two multiples of 0.01 goes to the one
      with an even number of hundredths, as Python's `round` does. */
  lemma Round2Tie(k: int)
    ensures Round2((2 * k + 1) as real / 200.0) == (if k % 2 == 0 then k else k + 1) as real / 100.0
  {
    var y := ((2 * k + 1) as real / 200.0) * 100.0;
    assert y == k as real + 0.5;
    assert y.Floor == k;
  }

  /** A value already on the 0.01 grid is left alone. */
  lemma Round2OnGrid(m: int)
    ensures Round2(m as real / 100.0) == m as real / 100.0
  {
    var y := (m as real / 100.0) * 100.0;
    assert y == m as real;
    assert y.Floor == m;
    assert Round2Steps(m as real / 100.0) == m;
  }

  /** A `datetime.timedelta` in Python's normal form. */
  datatype Timedelta = Timedelta(days: int, seconds: int, microseconds: int)

  predicate Normalized(t: Timedelta)
  {
    0 <= t.seconds < SecondsPerDay && 0 <= t.microseconds < MicrosPerSecond
  }

  function TotalMicros(t: Timedelta): int
  {
    (t.days * SecondsPerDay + t.seconds) * MicrosPerSecond + t.microseconds
  }

  /** The difference of two datetimes given in microseconds, as Python
      normalises it: whole days (possibly negative), then seconds and
      microseconds that are never negative. */
  function TimedeltaOf(us: int): (t: Timedelta)
    ensures Normalized(t)
    ensures TotalMicros(t) == us
  {
    var secs := us / MicrosPerSecond;
    Timedelta(secs / SecondsPerDay, secs % SecondsPerDay, us % MicrosPerSecond)
  }

  /** The normal form is unique. */
  lemma TimedeltaUnique(t: Timedelta, us: int)
    requires Normalized(t) && TotalMicros(t) == us
    ensures t == TimedeltaOf(us)
  {
    var a := t.days * SecondsPerDay + t.seconds;
    DivModUnique(us, MicrosPerSecond, a, t.microseconds);
    DivModUnique(a, SecondsPerDay, t.days, t.seconds);
  }

  lemma DivModUnique(n: int, d: int, q: int, m: int)
    requires d > 0 && 0 <= m < d && n == q * d + m
    ensures q == n / d && m == n % d
  {
    var q' := n / d;
    var m' := n % d;
    assert n == q' * d + m';
    MulSub(q, q', d);
    if q > q' {
      MulMono(1, q - q', d);
    } else if q < q' {
      MulSub(q', q, d);
      MulMono(1, q' - q, d);
    }
  }

  lemma MulSub(a: int, b: int, d: int)
    ensures (a - b) * d == a * d - b * d
  {
  }

  /** `(ended - started).seconds`: the seconds part of the elapsed time,
      whole days dropped, so always below one day, even for long or
      negative durations. */
  function RunTimeSeconds(started: int, ended: int): (r: int)
    ensures 0 <= r < SecondsPerDay
    ensures ((ended - started) / MicrosPerSecond - r) % SecondsPerDay == 0
  {
    TimedeltaOf(ended - started).seconds
  }

  /** Under one day the figure is the elapsed time in whole seconds. */
  lemma RunTimeWithinDay(started: int, ended: int)
    requires 0 <= ended - started < SecondsPerDay * MicrosPerSecond
    ensures RunTimeSeconds(started, ended) * MicrosPerSecond <= ended - started
    ensures ended - started < (RunTimeSeconds(started, ended) + 1) * MicrosPerSecond
  {
  }

  /** A run of one day and five seconds is reported as five seconds, and a
      job that ends one second before it starts as 86399 seconds. */
  lemma RunTimeDropsDays()
    ensures RunTimeSeconds(0, (SecondsPerDay + 5) * MicrosPerSecond) == 5
    ensures RunTimeSeconds(MicrosPerSecond, 0) == SecondsPerDay - 1
  {
    TimedeltaUnique(Timedelta(1, 5, 0), (SecondsPerDay + 5) * MicrosPerSecond);
    TimedeltaUnique(Timedelta(-1, SecondsPerDay - 1, 0), -MicrosPerSecond);
  }

  /** `(job.ended - job.started).seconds` with either end possibly `None`: the
      subtraction then raises `TypeError`. */
  function RunTime(started: Option<int>, ended: Option<int>): (r: Result<int>)
    ensures r.Raise? <==> started.None? || ended.None?
    ensures r.Raise? ==> r.error == TypeError
    ensures r.Ok? ==> 0 <= r.value < SecondsPerDay
  {
    if started.None? || ended.None? then Raise(TypeError)
    else Ok(RunTimeSeconds(started.value, ended.value))
  }

  /** `gb_per_table`: billed bytes in gigabytes split evenly over the `n`
      table references, rounded; zero when the byte count is `None`. */
  function GbPerTable(billed: Option<nat>, n: nat): (g: real)
    requires n >= 1
    ensures billed.None? ==> g == 0.0
    ensures g >= 0.0
  {
    match billed
    case None => 0.0
    case Some(b) => Round2(b as real / (1_000_000_000.0 * n as real))
  }

  /** The `n` equal shares of a billed byte count add up to its gigabytes,
      within half a hundredth per share. */
  lemma GbPerTableSplit(billed: nat, n: nat)
    requires n >= 1
    ensures Abs(GbPerTable(Some(billed), n) * n as real - billed as real / 1_000_000_000.0) <= 0.005 * n as real
  {
    var x := billed as real / (1_000_000_000.0 * n as real);
    SplitScales(billed as real, n as real);
    ScaleBound(Round2(x), x, n as real, billed as real / 1_000_000_000.0);
  }

  lemma SplitScales(b: real, n: real)
    requires n > 0.0
    ensures (b / (1_000_000_000.0 * n)) * n == b / 1_000_000_000.0
  {
  }

  lemma ScaleBound(g: real, x: real, n: real, total: real)
    requires n >= 0.0 && Abs(g - x) <= 0.005 && x * n == total
    ensures Abs(g * n - total) <= 0.005 * n
  {
    var e := if g >= x then g - x else x - g;
    assert 0.0 <= e <= 0.005;
    MulNonneg(e, n);
    MulNonneg(0.005 - e, n);
    assert (0.005 - e) * n == 0.005 * n - e * n;
    assert Abs(g * n - x * n) == e * n;
  }

  lemma MulNonneg(a: real, b: real)
    requires a >= 0.0 && b >= 0.0
    ensures a * b >= 0.0
  {
  }

  /** `try_per_table`: the price of the job's whole billed bytes, rounded.
      It is NOT divided by the number of table references. */
  function TryPerTable(billed: Option<nat>, tryPerTerabyte: real): (c: real)
    ensures billed.None? ==> c == 0.0
  {
    match billed
    case None => 0.0
    case Some(b) => Round2(b as real / 1_000_000_000_000.0 * tryPerTerabyte)
  }

  /** Each row's price is the whole job's price, rounded: it does not depend
      on how many tables the job read. */
  lemma TryPerTableWholePrice(billed: nat, tryPerTerabyte: real)
    ensures Abs(TryPerTable(Some(billed), tryPerTerabyte) - billed as real / 1_000_000_000_000.0 * tryPerTerabyte) <= 0.005
  {
  }
}
