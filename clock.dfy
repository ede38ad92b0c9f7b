/** Times of day as the scheduler writes them: "HH:MM" strings, converted to and
    from minutes after midnight (scheduler.ts, timeToMinutes and minutesToTime). */
module Clock {
  import opened Text

  const MinutesPerDay: nat := 1440

  /** A string `time.split(':').map(Number)` reads as two whole numbers: at least
      two colon-separated pieces, the first two non-empty digit strings. */
  predicate IsClock(t: string) {
    var p := Split(t, ':');
    |p| >= 2 && p[0] != [] && AllDigits(p[0]) && p[1] != [] && AllDigits(p[1])
  }

  /** Exactly the shape `minutesToTime` produces: two digits, a colon, two digits,
      an hour below 24 and a minute below 60. */
  predicate IsCanonicalClock(t: string) {
    |t| == 5 && t[2] == ':'
    && IsDigit(t[0]) && IsDigit(t[1]) && IsDigit(t[3]) && IsDigit(t[4])
    && DigitValue(t[0]) * 10 + DigitValue(t[1]) < 24
    && DigitValue(t[3]) * 10 + DigitValue(t[4]) < 60
  }

  /** timeToMinutes: hours times 60 plus minutes. */
  function TimeToMinutes(t: string): nat
    requires IsClock(t)
  {
    var p := Split(t, ':');
    DigitsValue(p[0]) * 60 + DigitsValue(p[1])
  }

  /** `n.toString().padStart(2, '0')` for n below 100. */
  function Pad2(n: nat): (r: string)
    requires n < 100
    ensures |r| == 2 && IsDigit(r[0]) && IsDigit(r[1])
    ensures DigitValue(r[0]) * 10 + DigitValue(r[1]) == n
  {
    [DigitChar(n / 10), DigitChar(n % 10)]
  }

  /** minutesToTime: the hour is taken modulo 24, so the minute count of the next
      day's midnight (1440) is rendered "00:00". */
  function MinutesToTime(m: nat): (r: string)
    ensures IsCanonicalClock(r)
    ensures DigitValue(r[0]) * 10 + DigitValue(r[1]) == (m / 60) % 24
    ensures DigitValue(r[3]) * 10 + DigitValue(r[4]) == m % 60
  {
    Pad2((m / 60) % 24) + [':'] + Pad2(m % 60)
  }

  lemma CanonicalSplit(t: string)
    requires IsCanonicalClock(t)
    ensures Split(t, ':') == [t[..2], t[3..]]
  {
    assert t == t[..2] + [':'] + t[3..];
    SplitPrefix(t[..2], t[3..], ':');
    SplitNoSep(t[3..], ':');
  }

  lemma TwoDigits(s: string)
    requires |s| == 2 && AllDigits(s)
    ensures DigitsValue(s) == DigitValue(s[0]) * 10 + DigitValue(s[1])
  {
    var a := s[..1];
    assert a[..0] == [] && a[0] == s[0];
    assert DigitsValue(a) == DigitValue(s[0]);
    assert s[..|s| - 1] == a;
  }

  /** Every canonical time is a time `timeToMinutes` can read, and it reads it as
      a minute of the day. */
  lemma {:induction false} CanonicalIsClock(t: string)
    requires IsCanonicalClock(t)
    ensures IsClock(t)
    ensures TimeToMinutes(t) < MinutesPerDay
    ensures TimeToMinutes(t) == (DigitValue(t[0]) * 10 + DigitValue(t[1])) * 60
                                + DigitValue(t[3]) * 10 + DigitValue(t[4])
  {
    CanonicalSplit(t);
    TwoDigits(t[..2]);
    TwoDigits(t[3..]);
  }

  /** Reading back a rendered time gives the minute count modulo one day: the
      hour wrap of minutesToTime is the only information lost. */
  lemma {:induction false} MinutesRoundTrip(m: nat)
    ensures IsClock(MinutesToTime(m))
    ensures TimeToMinutes(MinutesToTime(m)) == m % MinutesPerDay
  {
    var r := MinutesToTime(m);
    CanonicalIsClock(r);
    DayMinutes(m);
  }

  /** Whole hours modulo a day, then minutes: the minute of the day. */
  lemma DayMinutes(m: nat)
    ensures ((m / 60) % 24) * 60 + m % 60 == m % MinutesPerDay
  {
    var q := m / 1440;
    var r := m % 1440;
    assert m == 60 * (24 * q + r / 60) + r % 60;
    assert m / 60 == 24 * q + r / 60 && m % 60 == r % 60;
    assert (m / 60) % 24 == r / 60;
  }

  /** Rendering the minutes of a canonical time gives the same string back. */
  lemma {:induction false} CanonicalRoundTrip(t: string)
    requires IsCanonicalClock(t)
    ensures IsClock(t) && MinutesToTime(TimeToMinutes(t)) == t
  {
    CanonicalIsClock(t);
    var h := DigitValue(t[0]) * 10 + DigitValue(t[1]);
    var mm := DigitValue(t[3]) * 10 + DigitValue(t[4]);
    var m := TimeToMinutes(t);
    HourMinute(m, h, mm);
    var r := MinutesToTime(m);
    assert r[0] == t[0] && r[1] == t[1] by {
      DigitPairUnique(r[0], r[1], t[0], t[1]);
    }
    assert r[3] == t[3] && r[4] == t[4] by {
      DigitPairUnique(r[3], r[4], t[3], t[4]);
    }
  }

  /** The hour and minute of a minute count within one day. */
  lemma HourMinute(m: nat, h: nat, mm: nat)
    requires m == h * 60 + mm && mm < 60 && h < 24
    ensures (m / 60) % 24 == h && m % 60 == mm
  {
  }

  lemma DigitPairUnique(a: char, b: char, c: char, d: char)
    requires IsDigit(a) && IsDigit(b) && IsDigit(c) && IsDigit(d)
    requires DigitValue(a) * 10 + DigitValue(b) == DigitValue(c) * 10 + DigitValue(d)
    ensures a == c && b == d
  {
  }

  /** The wrap at 24 hours: a time exactly one day later renders the same, so an
      event that ends at midnight ends at "00:00". */
  lemma MidnightRendersAsZero()
    ensures MinutesToTime(MinutesPerDay) == "00:00"
  {
  }
}
