/** Instants are integer milliseconds. This module holds the duration
    constants the source spells out as `60 * 60 * 1000`, and the
    hours/minutes split that every countdown on the pages uses:
    `Math.floor(diff / 3600000)` and `Math.floor((diff % 3600000) / 60000)`,
    where JavaScript's `%` truncates toward zero. */
module Clock {

  const MsPerMinute: int := 60000
  const MsPerHour: int := 3600000
  const MsPerDay: int := 86400000

  /** The cancellation policy's threshold: two hours of lead time. */
  const RefundLeadMs: int := 2 * MsPerHour

  /** JavaScript's `a % 3600000`: the remainder takes the sign of `a`. */
  function HourRemainder(a: int): (r: int)
    ensures a >= 0 ==> 0 <= r < MsPerHour
    ensures a < 0 ==> -MsPerHour < r <= 0
    ensures (a - r) % MsPerHour == 0
  {
    if a >= 0 then a % MsPerHour else -((-a) % MsPerHour)
  }

  /** `Math.floor(diff / 3600000)`; Dafny's `/` by a positive divisor is the floor. */
  function WholeHours(diff: int): int
  {
    diff / MsPerHour
  }

  /** `Math.floor((diff % 3600000) / 60000)`. */
  function ExtraMinutes(diff: int): int
  {
    HourRemainder(diff) / MsPerMinute
  }

  /** For a non-negative difference the split is the usual one: whole hours,
      then 0..59 whole minutes, and less than a minute left over. */
  lemma SplitOfNonNegative(diff: int)
    requires diff >= 0
    ensures WholeHours(diff) >= 0
    ensures 0 <= ExtraMinutes(diff) < 60
    ensures WholeHours(diff) * MsPerHour + ExtraMinutes(diff) * MsPerMinute <= diff
    ensures diff < WholeHours(diff) * MsPerHour + (ExtraMinutes(diff) + 1) * MsPerMinute
  {
  }

  /** For a negative difference the hours are negative and the minutes lie in [-60, 0]. */
  lemma SplitOfNegative(diff: int)
    requires diff < 0
    ensures WholeHours(diff) < 0
    ensures -60 <= ExtraMinutes(diff) <= 0
  {
  }

  lemma SplitBySign(diff: int)
    ensures diff >= 0 ==>
              && WholeHours(diff) >= 0 && 0 <= ExtraMinutes(diff) < 60
              && WholeHours(diff) * MsPerHour + ExtraMinutes(diff) * MsPerMinute <= diff
              && diff < WholeHours(diff) * MsPerHour + (ExtraMinutes(diff) + 1) * MsPerMinute
    ensures diff < 0 ==> WholeHours(diff) < 0 && -60 <= ExtraMinutes(diff) <= 0
  {
    if diff >= 0 { SplitOfNonNegative(diff); } else { SplitOfNegative(diff); }
  }

  /** What a countdown on the pages shows: `Xч Yм` when there are whole hours,
      `Yм` when only minutes, and a page-specific fallback otherwise. */
  datatype Countdown = InHoursMinutes(hours: int, minutes: int) | InMinutes(minutes: int) | Imminent

  function CountdownOf(diff: int): (c: Countdown)
    ensures c.InHoursMinutes? <==> diff >= MsPerHour
    ensures c.InMinutes? <==> MsPerMinute <= diff < MsPerHour
    ensures c.Imminent? <==> diff < MsPerMinute
    ensures c.InHoursMinutes? ==>
              && c.hours >= 1 && 0 <= c.minutes < 60
              && c.hours * MsPerHour + c.minutes * MsPerMinute <= diff
              && diff < c.hours * MsPerHour + (c.minutes + 1) * MsPerMinute
    ensures c.InMinutes? ==>
              && 1 <= c.minutes < 60
              && c.minutes * MsPerMinute <= diff < (c.minutes + 1) * MsPerMinute
  {
    SplitBySign(diff);
    var hours := WholeHours(diff);
    var minutes := ExtraMinutes(diff);
    if hours > 0 then InHoursMinutes(hours, minutes)
    else if minutes > 0 then InMinutes(minutes)
    else Imminent
  }
}

/** The text formats the store and the pages build and parse. */
module Format {
  import opened Wrappers

  function Digit(d: int): char
    requires 0 <= d < 10
  {
    '0' + d as char
  }

  /** `String(n).padStart(2, '0')` for a number below 100. */
  function Pad2(n: int): (r: string)
    requires 0 <= n < 100
    ensures |r| == 2 && '0' <= r[0] <= '9' && '0' <= r[1] <= '9'
  {
    [Digit(n / 10), Digit(n % 10)]
  }

  /** The `HH:00` label of a whole hour. */
  function HourLabel(h: int): (r: string)
    requires 0 <= h < 24
    ensures |r| == 5 && r[2] == ':'
  {
    Pad2(h) + ":00"
  }

  /** `parseInt(label.split(':')[0])` for the labels this program offers: the
      decimal value of the digits before the first `:`, or nothing when that
      part does not start with a digit (parseInt's NaN). */
  function ParseHour(time: string): Option<int>
  {
    var head := UpTo(time, ':');
    if |head| > 0 && IsDigit(head[0]) then Some(LeadingValue(head, 0, 0)) else None
  }

  predicate IsDigit(c: char) { '0' <= c <= '9' }

  /** The prefix of `s` before the first occurrence of `sep`. */
  function UpTo(s: string, sep: char): (r: string)
    ensures |r| <= |s| && r == s[..|r|]
    ensures sep !in r
    ensures |r| < |s| ==> s[|r|] == sep
  {
    if s == [] || s[0] == sep then [] else [s[0]] + UpTo(s[1..], sep)
  }

  /** The value of the run of digits of `s` starting at `i`, accumulated onto `acc`. */
  function LeadingValue(s: string, i: nat, acc: int): int
    requires i <= |s|
    decreases |s| - i
  {
    if i < |s| && IsDigit(s[i]) then LeadingValue(s, i + 1, acc * 10 + (s[i] - '0') as int) else acc
  }

  /** Parsing a label gives back its hour. */
  lemma ParseHourLabel(h: int)
    requires 0 <= h < 24
    ensures ParseHour(HourLabel(h)) == Some(h)
  {
    var text := HourLabel(h);
    assert UpTo(text, ':') == Pad2(h) by {
      assert text == [text[0], text[1]] + [':'] + "00";
      assert UpTo(text[2..], ':') == [];
      assert UpTo(text[1..], ':') == [text[1]] + UpTo(text[2..], ':');
    }
    var digits := Pad2(h);
    assert LeadingValue(digits, 2, (h / 10) * 10 + h % 10) == h;
    assert LeadingValue(digits, 1, h / 10) == h;
  }

  /** Different hours have different labels. */
  lemma HourLabelInjective(h: int, k: int)
    requires 0 <= h < 24 && 0 <= k < 24 && h != k
    ensures HourLabel(h) != HourLabel(k)
  {
    ParseHourLabel(h);
    ParseHourLabel(k);
  }
}
