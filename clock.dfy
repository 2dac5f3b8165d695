/**
 * Wall-clock times written "HH:MM", as the calendar components write and read
 * them: `h.toString().padStart(2, "0") + ":" + ...` to write, and
 * `s.split(":").map(Number)` destructured into `[hours, minutes]` to read.
 */
module Clock {
  import opened Js

  /** "HH:MM" with both fields zero-padded to two characters. */
  function FormatClock(h: int, m: int): string {
    Pad2(h) + ":" + Pad2(m)
  }

  /** `const [h, m] = s.split(":").map(Number)`; a missing second part is `undefined`, read as NaN. */
  function ClockParts(s: string): (Num, Num) {
    var parts := Split(s, ':');
    (Number(parts[0]), if |parts| > 1 then Number(parts[1]) else NaN)
  }

  /** Minutes since midnight. */
  function Minutes(h: int, m: int): int {
    h * 60 + m
  }

  /** A written time splits at ':' into its two padded fields. */
  lemma ClockSplit(h: nat, m: nat)
    ensures Split(FormatClock(h, m), ':') == [Pad2(h), Pad2(m)]
    ensures Number(Pad2(h)) == Fin(h) && Number(Pad2(m)) == Fin(m)
  {
    NumberOfPad2(h);
    NumberOfPad2(m);
    SplitTwo(Pad2(h), Pad2(m), ':');
    assert FormatClock(h, m) == Pad2(h) + [':'] + Pad2(m);
  }

  /** Reading back a written time gives the same hour and minute. */
  lemma ClockRoundTrip(h: nat, m: nat)
    ensures ClockParts(FormatClock(h, m)) == (Fin(h), Fin(m))
  {
    ClockSplit(h, m);
  }

  /** A written time is five characters "DD:DD" whenever both fields are below 100. */
  lemma ClockShape(h: nat, m: nat)
    requires h < 100 && m < 100
    ensures var s := FormatClock(h, m);
      |s| == 5 && s[2] == ':' && IsDigit(s[0]) && IsDigit(s[1]) && IsDigit(s[3]) && IsDigit(s[4])
  {
    Pad2Shape(h);
    Pad2Shape(m);
    FieldsShape(Pad2(h), Pad2(m));
  }

  lemma FieldsShape(a: string, b: string)
    requires |a| == 2 && |b| == 2 && AllDigits(a) && AllDigits(b)
    ensures var s := a + ":" + b;
      |s| == 5 && s[2] == ':' && IsDigit(s[0]) && IsDigit(s[1]) && IsDigit(s[3]) && IsDigit(s[4])
  {
    var s := a + ":" + b;
    assert s[0] == a[0] && s[1] == a[1] && s[2] == ':' && s[3] == b[0] && s[4] == b[1];
  }
}
