/**
 * Wall-clock "HH:mm" strings: the opening, closing and lunch settings of an establishment
 * and the labels the views print. They are parsed with `parseInt(s.split(':')[i])` and,
 * for the lunch test, compared as strings.
 */
module Clock {

  predicate IsDigit(c: char) { '0' <= c <= '9' }

  function DigitValue(c: char): (r: int)
    requires IsDigit(c)
    ensures 0 <= r <= 9
  {
    c as int - '0' as int
  }

  function DigitChar(v: int): (c: char)
    requires 0 <= v <= 9
    ensures IsDigit(c) && DigitValue(c) == v
  {
    ('0' as int + v) as char
  }

  /** A time as an `<input type="time">` produces it: two digits, a colon, two digits, 00:00 to 23:59. */
  predicate WellFormedTime(s: string)
  {
    |s| == 5 && IsDigit(s[0]) && IsDigit(s[1]) && s[2] == ':' && IsDigit(s[3]) && IsDigit(s[4]) &&
    DigitValue(s[0]) * 10 + DigitValue(s[1]) <= 23 &&
    DigitValue(s[3]) * 10 + DigitValue(s[4]) <= 59
  }

  /** `parseInt(s.split(':')[0])`. */
  function HourOf(s: string): (r: int)
    requires WellFormedTime(s)
    ensures 0 <= r <= 23
  {
    DigitValue(s[0]) * 10 + DigitValue(s[1])
  }

  /** `parseInt(s.split(':')[1] || '0')`. */
  function MinuteOf(s: string): (r: int)
    requires WellFormedTime(s)
    ensures 0 <= r <= 59
  {
    DigitValue(s[3]) * 10 + DigitValue(s[4])
  }

  /** Minutes since midnight of a well-formed time. */
  function MinutesOf(s: string): (r: int)
    requires WellFormedTime(s)
    ensures 0 <= r < 24 * 60
  {
    HourOf(s) * 60 + MinuteOf(s)
  }

  /** date-fns `format(t, 'HH:mm')` of a time `minutes` after midnight. */
  function FormatHHmm(minutes: int): (s: string)
    requires 0 <= minutes < 24 * 60
    ensures WellFormedTime(s) && MinutesOf(s) == minutes
  {
    var h := minutes / 60;
    var m := minutes % 60;
    [DigitChar(h / 10), DigitChar(h % 10), ':', DigitChar(m / 10), DigitChar(m % 10)]
  }

  /**
   * `a < b` on strings, lexicographic by Unicode scalar value. This is JavaScript's
   * code-unit order on strings without astral characters, the `"HH:mm"` values included.
   */
  predicate StringLess(a: string, b: string)
    decreases |a|
  {
    if |a| == 0 then |b| > 0
    else if |b| == 0 then false
    else if a[0] != b[0] then a[0] < b[0]
    else StringLess(a[1..], b[1..])
  }

  /**
   * On well-formed times, comparing the strings is comparing the times. Outside that
   * shape (a stored "12:00:00", say) the string order is what the application uses.
   */
  lemma StringLessIsTimeLess(a: string, b: string)
    requires WellFormedTime(a) && WellFormedTime(b)
    ensures StringLess(a, b) <==> MinutesOf(a) < MinutesOf(b)
  {
    var a1, b1 := a[1..], b[1..];
    var a2, b2 := a1[1..], b1[1..];
    var a3, b3 := a2[1..], b2[1..];
    var a4, b4 := a3[1..], b3[1..];
    assert a4 == [a[4]] && b4 == [b[4]];
    assert a3[0] == a[3] && b3[0] == b[3];
    assert a2[0] == ':' == b2[0];
    assert a1[0] == a[1] && b1[0] == b[1];
    var l4 := a[4] < b[4];
    assert StringLess(a4, b4) == l4;
    var l3 := a[3] < b[3] || (a[3] == b[3] && l4);
    assert StringLess(a3, b3) == l3;
    assert StringLess(a2, b2) == l3;
    var l1 := a[1] < b[1] || (a[1] == b[1] && l3);
    assert StringLess(a1, b1) == l1;
    assert StringLess(a, b) == (a[0] < b[0] || (a[0] == b[0] && l1));
    var x0, x1, x3, x4 := DigitValue(a[0]), DigitValue(a[1]), DigitValue(a[3]), DigitValue(a[4]);
    var y0, y1, y3, y4 := DigitValue(b[0]), DigitValue(b[1]), DigitValue(b[3]), DigitValue(b[4]);
    assert (a[0] < b[0]) == (x0 < y0) && (a[0] == b[0]) == (x0 == y0);
    assert (a[1] < b[1]) == (x1 < y1) && (a[1] == b[1]) == (x1 == y1);
    assert (a[3] < b[3]) == (x3 < y3) && (a[3] == b[3]) == (x3 == y3);
    assert (a[4] < b[4]) == (x4 < y4);
  }
}
