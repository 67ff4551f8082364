/** The time arithmetic of the scheduler: `formatDuration` for countdowns and
    `getNextResetTime`, the next daily reset at UTC midnight, both on millisecond
    timestamps. */
module Schedule {
  import opened Text

  const SecondMs: int := 1000
  const MinuteMs: int := 60000
  const HourMs: int := 3600000
  /** A UTC day has no leap seconds in JavaScript's time value, so it is always this long. */
  const DayMs: int := 86400000

  /** The whole hours, minutes and seconds `formatDuration` shows. */
  datatype Parts = Parts(h: nat, m: nat, s: nat)

  /** `ms < 0` counts as 0; hours are not wrapped at a day. */
  function DurationParts(ms: int): (p: Parts)
    ensures p.m < 60 && p.s < 60
    ensures var t := if ms < 0 then 0 else ms;
      p.h * HourMs + p.m * MinuteMs + p.s * SecondMs <= t < p.h * HourMs + p.m * MinuteMs + p.s * SecondMs + SecondMs
  {
    var t := if ms < 0 then 0 else ms;
    DurationSplit(t);
    Parts(t / HourMs, (t % HourMs) / MinuteMs, (t % MinuteMs) / SecondMs)
  }

  /** Division with remainder is unique. */
  lemma DivModUnique(q: nat, r: nat, d: nat)
    requires 0 < d && r < d
    ensures (q * d + r) / d == q && (q * d + r) % d == r
  {
    var x := q * d + r;
    var q2 := x / d;
    assert q2 * d + x % d == x;
    if q2 < q {
      MulGrows(q2 + 1, q, d);
    } else if q < q2 {
      MulGrows(q + 1, q2, d);
    }
  }

  lemma MulGrows(a: nat, b: nat, d: nat)
    requires a <= b
    ensures a * d <= b * d
  {
    assert b * d == a * d + (b - a) * d;
  }

  /** Hours, minutes and seconds of `t` add back up to `t` to within a second. */
  lemma DurationSplit(t: nat)
    ensures (t % HourMs) / MinuteMs < 60 && (t % MinuteMs) / SecondMs < 60
    ensures var body := (t / HourMs) * HourMs + ((t % HourMs) / MinuteMs) * MinuteMs + ((t % MinuteMs) / SecondMs) * SecondMs;
      body <= t < body + SecondMs
  {
    var h, r := t / HourMs, t % HourMs;
    var m, r2 := r / MinuteMs, r % MinuteMs;
    var s := r2 / SecondMs;
    assert t == h * HourMs + r;
    assert r == m * MinuteMs + r2;
    assert t == (h * 60 + m) * MinuteMs + r2;
    DivModUnique(h * 60 + m, r2, MinuteMs);
    assert r2 == t % MinuteMs;
    assert r2 == s * SecondMs + r2 % SecondMs;
  }

  /** `${h}h ${m}m ${s}s` */
  function FormatDuration(ms: int): string {
    var p := DurationParts(ms);
    NatToString(p.h) + "h " + NatToString(p.m) + "m " + NatToString(p.s) + "s"
  }

  /** Two countdown texts are equal exactly when the durations have the same whole seconds:
      the text loses only the milliseconds. */
  lemma FormatDecidesSeconds(a: nat, b: nat)
    ensures FormatDuration(a) == FormatDuration(b) <==> a / SecondMs == b / SecondMs
  {
    PartsDecideSeconds(a, b);
    var p, q := DurationParts(a), DurationParts(b);
    if FormatDuration(a) == FormatDuration(b) {
      RenderInjective(NatToString(p.h), NatToString(p.m), NatToString(p.s),
                      NatToString(q.h), NatToString(q.m), NatToString(q.s));
      NatToStringInjective(p.h, q.h);
      NatToStringInjective(p.m, q.m);
      NatToStringInjective(p.s, q.s);
    }
  }

  lemma NatToStringInjective(a: nat, b: nat)
    requires NatToString(a) == NatToString(b)
    ensures a == b
  {
    DecimalRoundTrip(a);
    DecimalRoundTrip(b);
  }

  /** `${h}h ${m}m ${s}s` determines its three digit strings. */
  lemma {:induction false} RenderInjective(h: string, m: string, s: string, h2: string, m2: string, s2: string)
    requires AllDigits(h) && AllDigits(m) && AllDigits(s) && AllDigits(h2) && AllDigits(m2) && AllDigits(s2)
    requires h + "h " + m + "m " + s + "s" == h2 + "h " + m2 + "m " + s2 + "s"
    ensures h == h2 && m == m2 && s == s2
  {
    var x := h + "h " + m + "m " + s + "s";
    var r1, r2 := " " + m + "m " + s + "s", " " + m2 + "m " + s2 + "s";
    RenderShape(h, m, s);
    RenderShape(h2, m2, s2);
    DigitsBeforeMark(x, h, r1, h2, r2, 'h');
    var t1, t2 := " " + s + "s", " " + s2 + "s";
    DigitsBeforeMark(r1[1..], m, t1, m2, t2, 'm');
    assert t1[1..] == s + ['s'] && t2[1..] == s2 + ['s'];
    assert s == (s + ['s'])[..|s|];
    assert s2 == (s2 + ['s'])[..|s2|];
  }

  lemma {:induction false} RenderShape(h: string, m: string, s: string)
    ensures h + "h " + m + "m " + s + "s" == h + (['h'] + (" " + m + "m " + s + "s"))
    ensures (" " + m + "m " + s + "s")[1..] == m + (['m'] + (" " + s + "s"))
  {
  }

  /** Digits followed by a non-digit mark: where the mark is decides the digits. */
  lemma {:induction false} DigitsBeforeMark(x: string, d1: string, r1: string, d2: string, r2: string, mark: char)
    requires AllDigits(d1) && AllDigits(d2) && !IsDigit(mark)
    requires x == d1 + ([mark] + r1) && x == d2 + ([mark] + r2)
    ensures d1 == d2 && r1 == r2
  {
    FirstNonDigit(x, d1, r1, mark);
    FirstNonDigit(x, d2, r2, mark);
    assert |d1| == |d2|;
    assert d1 == x[..|d1|] == d2;
    assert r1 == x[|d1| + 1..] == r2;
  }

  /** In digits followed by a mark, the mark is the first non-digit. */
  lemma {:induction false} FirstNonDigit(x: string, d: string, r: string, mark: char)
    requires AllDigits(d) && x == d + ([mark] + r)
    ensures |d| < |x| && x[|d|] == mark
    ensures forall i :: 0 <= i < |d| ==> IsDigit(x[i])
  {
    assert forall i :: 0 <= i < |d| ==> x[i] == d[i];
  }

  /** The parts, read as a count of seconds, are the whole seconds of the duration. */
  lemma PartsAreSeconds(t: nat)
    ensures var p := DurationParts(t); p.h * 3600 + p.m * 60 + p.s == t / SecondMs
  {
    var p := DurationParts(t);
    var secs := p.h * 3600 + p.m * 60 + p.s;
    assert secs * SecondMs == p.h * HourMs + p.m * MinuteMs + p.s * SecondMs;
    DivModUnique(secs, t - secs * SecondMs, SecondMs);
  }

  /** Durations whose whole seconds agree show the same parts; any other two differ. */
  lemma PartsDecideSeconds(a: nat, b: nat)
    ensures DurationParts(a) == DurationParts(b) <==> a / SecondMs == b / SecondMs
  {
    var p, q := DurationParts(a), DurationParts(b);
    PartsAreSeconds(a);
    PartsAreSeconds(b);
    if a / SecondMs == b / SecondMs {
      var secs := a / SecondMs;
      assert secs == (p.h * 60 + p.m) * 60 + p.s == (q.h * 60 + q.m) * 60 + q.s;
      DivModUnique(p.h * 60 + p.m, p.s, 60);
      DivModUnique(q.h * 60 + q.m, q.s, 60);
      DivModUnique(p.h, p.m, 60);
      DivModUnique(q.h, q.m, 60);
    }
  }

  /** `Date.UTC` of today's date at hour 0, plus a day when that is not after now. */
  function NextResetTime(nowMs: nat): (next: nat)
    ensures next % DayMs == 0
    ensures nowMs < next <= nowMs + DayMs
  {
    var midnight: nat := (nowMs / DayMs) * DayMs;
    if midnight <= nowMs then midnight + DayMs else midnight
  }

  /** The reset is the first UTC midnight strictly after now. */
  lemma NextResetIsFirstMidnight(nowMs: nat, t: nat)
    requires t % DayMs == 0 && nowMs < t
    ensures NextResetTime(nowMs) <= t
  {
    var next := NextResetTime(nowMs);
    assert next == (nowMs / DayMs + 1) * DayMs;
    assert t == (t / DayMs) * DayMs;
    assert nowMs / DayMs < t / DayMs;
  }

  /** The countdown to the reset never shows more than 24 hours, and shows 24 only when
      now is itself a UTC midnight. */
  lemma WaitAtMostADay(nowMs: nat)
    ensures DurationParts(NextResetTime(nowMs) - nowMs).h <= 24
    ensures DurationParts(NextResetTime(nowMs) - nowMs).h == 24 <==> nowMs % DayMs == 0
  {
    var wait := NextResetTime(nowMs) - nowMs;
    assert wait == DayMs - nowMs % DayMs;
  }
}
