/**
 * `getFormattedTimestamp` of app.js: the local clock as "HH:MM:SS", each
 * field padded to two digits.  The clock reading is a parameter.
 */
module Timestamp {

  /** The decimal digit of a number below ten. */
  function Digit(d: nat): (c: char)
    requires d < 10
    ensures '0' <= c <= '9' && c as int - '0' as int == d
  {
    ('0' as int + d) as char
  }

  /** The value of a decimal digit character. */
  function DigitValue(c: char): int
  {
    c as int - '0' as int
  }

  /** `n.toString().padStart(2, "0")` for a clock field. */
  function Pad2(n: nat): (r: string)
    requires n < 100
    ensures |r| == 2 && '0' <= r[0] <= '9' && '0' <= r[1] <= '9'
    ensures DigitValue(r[0]) * 10 + DigitValue(r[1]) == n
  {
    if n < 10 then "0" + [Digit(n)] else [Digit(n / 10), Digit(n % 10)]
  }

  /** `${hours}:${minutes}:${seconds}`. */
  function FormattedTimestamp(hours: nat, minutes: nat, seconds: nat): (r: string)
    requires hours < 24 && minutes < 60 && seconds < 60
    ensures |r| == 8 && r[2] == ':' && r[5] == ':'
  {
    Pad2(hours) + ":" + Pad2(minutes) + ":" + Pad2(seconds)
  }

  /** Reads the three fields back out of a formatted timestamp. */
  function ParseTimestamp(r: string): (int, int, int)
    requires |r| == 8
  {
    (DigitValue(r[0]) * 10 + DigitValue(r[1]),
     DigitValue(r[3]) * 10 + DigitValue(r[4]),
     DigitValue(r[6]) * 10 + DigitValue(r[7]))
  }

  /** The formatted timestamp determines the clock reading it was made from. */
  lemma TimestampRoundTrip(hours: nat, minutes: nat, seconds: nat)
    requires hours < 24 && minutes < 60 && seconds < 60
    ensures ParseTimestamp(FormattedTimestamp(hours, minutes, seconds)) == (hours, minutes, seconds)
  {
    var h, m, s := Pad2(hours), Pad2(minutes), Pad2(seconds);
    var r := FormattedTimestamp(hours, minutes, seconds);
    assert r == h + ":" + m + ":" + s;
    assert r[0] == h[0] && r[1] == h[1];
    assert r[3] == m[0] && r[4] == m[1];
    assert r[6] == s[0] && r[7] == s[1];
  }
}
