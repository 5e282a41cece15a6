/** Clock readings and the two `strftime` formats the collectors use:
    "%Y-%m-%d %H:%M:%S" for a record's collection date and
    "%Y%m%d_%H%M%S" for a generated file name. The clock itself is an
    input: every reading is passed in as a `DateTime`. */
module Clock {

  datatype DateTime = DateTime(year: int, month: int, day: int, hour: int, minute: int, second: int)
  {
    /** A reading the clock can give, with a four-digit year. */
    predicate Valid() {
      && 1000 <= year <= 9999
      && 1 <= month <= 12
      && 1 <= day <= 31
      && 0 <= hour < 24
      && 0 <= minute < 60
      && 0 <= second < 60
    }
  }

  function Digit(n: int): (c: char)
    requires 0 <= n < 10
    ensures '0' <= c <= '9'
  {
    (48 + n) as char
  }

  function DigitValue(c: char): int {
    c as int - 48
  }

  /** A number below 100 as two digits, zero-padded (`%m`, `%d`, `%H`, `%M`, `%S`). */
  function Pad2(n: int): (r: string)
    requires 0 <= n < 100
    ensures |r| == 2 && Read2(r, 0) == n
    ensures '0' <= r[0] <= '9' && '0' <= r[1] <= '9'
  {
    [Digit(n / 10), Digit(n % 10)]
  }

  /** The number written by the two digits at position `k`. */
  function Read2(s: string, k: nat): int
    requires k + 2 <= |s|
  {
    DigitValue(s[k]) * 10 + DigitValue(s[k + 1])
  }

  /** A four-digit year (`%Y`). */
  function Year4(y: int): (r: string)
    requires 1000 <= y <= 9999
    ensures |r| == 4 && Read4(r, 0) == y
    ensures forall k :: 0 <= k < 4 ==> '0' <= r[k] <= '9'
  {
    Pad2(y / 100) + Pad2(y % 100)
  }

  /** The number written by the four digits at position `k`. */
  function Read4(s: string, k: nat): int
    requires k + 4 <= |s|
  {
    Read2(s, k) * 100 + Read2(s, k + 2)
  }

  /** `strftime("%Y-%m-%d %H:%M:%S")`. */
  function LongStamp(t: DateTime): (r: string)
    requires t.Valid()
    ensures |r| == 19
    ensures r[4] == '-' && r[7] == '-' && r[10] == ' ' && r[13] == ':' && r[16] == ':'
    ensures forall k :: 0 <= k < 19 && k != 4 && k != 7 && k != 10 && k != 13 && k != 16 ==> '0' <= r[k] <= '9'
  {
    Year4(t.year) + "-" + Pad2(t.month) + "-" + Pad2(t.day) + " "
      + Pad2(t.hour) + ":" + Pad2(t.minute) + ":" + Pad2(t.second)
  }

  /** `strftime("%Y%m%d_%H%M%S")`. */
  function CompactStamp(t: DateTime): (r: string)
    requires t.Valid()
    ensures |r| == 15 && r[8] == '_'
    ensures forall k :: 0 <= k < 15 && k != 8 ==> '0' <= r[k] <= '9'
  {
    Year4(t.year) + Pad2(t.month) + Pad2(t.day) + "_"
      + Pad2(t.hour) + Pad2(t.minute) + Pad2(t.second)
  }

  /** Reads back a "%Y-%m-%d %H:%M:%S" stamp. */
  function ReadLong(s: string): DateTime
    requires |s| == 19
  {
    DateTime(Read4(s, 0), Read2(s, 5), Read2(s, 8), Read2(s, 11), Read2(s, 14), Read2(s, 17))
  }

  /** Reads back a "%Y%m%d_%H%M%S" stamp. */
  function ReadCompact(s: string): DateTime
    requires |s| == 15
  {
    DateTime(Read4(s, 0), Read2(s, 4), Read2(s, 6), Read2(s, 9), Read2(s, 11), Read2(s, 13))
  }

  /** Reading two digits inside a longer text reads the part they came from. */
  lemma Read2Shift(a: string, b: string, c: string, k: nat)
    requires k + 2 <= |b|
    ensures Read2(a + b + c, |a| + k) == Read2(b, k)
  {
    assert (a + b + c)[|a| + k] == b[k];
    assert (a + b + c)[|a| + k + 1] == b[k + 1];
  }

  /** The collection-date format loses nothing: the reading can be recovered. */
  lemma LongRoundTrip(t: DateTime)
    requires t.Valid()
    ensures ReadLong(LongStamp(t)) == t
  {
    var y, mo, d, h, mi, se := Year4(t.year), Pad2(t.month), Pad2(t.day), Pad2(t.hour), Pad2(t.minute), Pad2(t.second);
    var s := LongStamp(t);
    assert s == y + "-" + mo + "-" + d + " " + h + ":" + mi + ":" + se;
    Read2Shift([], y, s[4..], 0);
    Read2Shift([], y, s[4..], 2);
    Read2Shift(s[..5], mo, s[7..], 0);
    Read2Shift(s[..8], d, s[10..], 0);
    Read2Shift(s[..11], h, s[13..], 0);
    Read2Shift(s[..14], mi, s[16..], 0);
    Read2Shift(s[..17], se, [], 0);
  }

  /** The file-name format loses nothing: the reading can be recovered. */
  lemma CompactRoundTrip(t: DateTime)
    requires t.Valid()
    ensures ReadCompact(CompactStamp(t)) == t
  {
    var y, mo, d, h, mi, se := Year4(t.year), Pad2(t.month), Pad2(t.day), Pad2(t.hour), Pad2(t.minute), Pad2(t.second);
    var s := CompactStamp(t);
    assert s == y + mo + d + "_" + h + mi + se;
    Read2Shift([], y, s[4..], 0);
    Read2Shift([], y, s[4..], 2);
    Read2Shift(s[..4], mo, s[6..], 0);
    Read2Shift(s[..6], d, s[8..], 0);
    Read2Shift(s[..9], h, s[11..], 0);
    Read2Shift(s[..11], mi, s[13..], 0);
    Read2Shift(s[..13], se, [], 0);
  }

  /** Two different readings give two different file-name stamps. */
  lemma CompactInjective(t1: DateTime, t2: DateTime)
    requires t1.Valid() && t2.Valid() && t1 != t2
    ensures CompactStamp(t1) != CompactStamp(t2)
  {
    CompactRoundTrip(t1);
    CompactRoundTrip(t2);
  }
}
