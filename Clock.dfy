/** The stopwatch display: `formatTime` turns elapsed seconds into `HH:MM:SS`. */
module Clock {
  import opened Options
  import opened Strings

  /** The number of seconds in `hrs` hours, `mins` minutes and `secs` seconds. */
  function Seconds(hrs: nat, mins: nat, secs: nat): nat {
    hrs * 3600 + mins * 60 + secs
  }

  /** The whole hours, the minutes within the hour and the seconds within the minute,
      computed as the display does: `floor(n / 3600)`, `floor((n % 3600) / 60)`, `n % 60`. */
  function Components(seconds: nat): (r: (nat, nat, nat))
    ensures Seconds(r.0, r.1, r.2) == seconds
    ensures r.1 < 60 && r.2 < 60
  {
    var hrs := seconds / 3600;
    var mins := (seconds % 3600) / 60;
    var secs := seconds % 60;
    ModOfSplit(seconds, hrs * 60 + mins, secs);
    (hrs, mins, secs)
  }

  lemma ModOfSplit(n: nat, k: nat, j: nat)
    requires j == (n % 3600) % 60 && k == (n / 3600) * 60 + (n % 3600) / 60
    ensures n == k * 60 + j && n % 60 == j
  {
    var q, r := n / 3600, n % 3600;
    assert n == q * 3600 + r;
    assert r == (r / 60) * 60 + r % 60;
    assert n == (q * 60 + r / 60) * 60 + r % 60;
  }

  /** `n.toString().padStart(2, '0')`. */
  function Pad2(n: nat): (r: string)
    ensures AllDigits(r) && |r| >= 2 && DigitsValue(r) == n
    ensures n < 100 ==> |r| == 2
    ensures n >= 10 ==> r == NatToString(n)
  {
    NatToStringRoundTrip(n);
    PadStartZerosValue(NatToString(n), 2);
    NatToStringShort(n);
    PadStart(NatToString(n), 2, '0')
  }

  /** `formatTime(seconds)`: hours, minutes and seconds, each with at least two digits,
      separated by colons. */
  function FormatTime(seconds: nat): (r: string)
    ensures |r| >= 8 && r[|r| - 3] == ':' && r[|r| - 6] == ':'
    ensures seconds < 100 * 3600 ==> |r| == 8
  {
    var c := Components(seconds);
    var h, m, s := Pad2(c.0), Pad2(c.1), Pad2(c.2);
    ColonPositions(h, m, s);
    FewHours(c.0, c.1, c.2);
    h + ":" + m + ":" + s
  }

  lemma FewHours(hrs: nat, mins: nat, secs: nat)
    ensures Seconds(hrs, mins, secs) < 100 * 3600 ==> hrs < 100
  {
  }

  lemma ColonPositions(h: string, m: string, s: string)
    requires |m| == 2 && |s| == 2
    ensures var r := h + ":" + m + ":" + s;
            |r| == |h| + 6 && r[|r| - 3] == ':' && r[|r| - 6] == ':'
  {
  }

  /** The pieces of an `H...H:MM:SS` display: three digit fields, the hours of at least two
      digits, the minutes and seconds of exactly two and below 60. */
  predicate ClockFields(f: seq<string>) {
    && |f| == 3 && |f[0]| >= 2 && |f[1]| == 2 && |f[2]| == 2
    && AllDigits(f[0]) && AllDigits(f[1]) && AllDigits(f[2])
    && DigitsValue(f[1]) < 60 && DigitsValue(f[2]) < 60
  }

  /** Reads an `H...H:MM:SS` display back into seconds; `None` for anything else. */
  function ParseClock(s: string): Option<nat> {
    var f := Split(s, ':');
    if ClockFields(f) then Some(Seconds(DigitsValue(f[0]), DigitsValue(f[1]), DigitsValue(f[2])))
    else None
  }

  /** Three digit strings joined by colons split back into the three. */
  lemma SplitClock(h: string, m: string, s: string)
    requires AllDigits(h) && AllDigits(m) && AllDigits(s)
    ensures Split(h + ":" + m + ":" + s, ':') == [h, m, s]
  {
    DigitsExclude(h, ':');
    DigitsExclude(m, ':');
    DigitsExclude(s, ':');
    assert h + ":" + m + ":" + s == h + [':'] + (m + [':'] + s);
    SplitTwo(m, s, ':');
    SplitAtFirstSeparator(h, m + [':'] + s, ':');
  }

  /** The display determines the elapsed time: reading it back gives the seconds shown. */
  lemma FormatTimeRoundTrip(seconds: nat)
    ensures ParseClock(FormatTime(seconds)) == Some(seconds)
  {
    var c := Components(seconds);
    SplitClock(Pad2(c.0), Pad2(c.1), Pad2(c.2));
  }

  /** Different elapsed times are displayed differently. */
  lemma FormatTimeInjective(a: nat, b: nat)
    requires FormatTime(a) == FormatTime(b)
    ensures a == b
  {
    FormatTimeRoundTrip(a);
    FormatTimeRoundTrip(b);
  }
}
