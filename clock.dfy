/** Times of day written as text: "H:MM" or "HH:MM". */
module Clock {
  import opened Common

  /** The text of hour `h` and minute `m`; an hour below ten gets a leading
      zero only when `padded`. */
  function TimeText(h: nat, m: nat, padded: bool): (s: string)
    requires h < 24 && m < 60
    ensures |s| == (if h >= 10 || padded then 5 else 4)
  {
    (if h >= 10 then [DigitChar(h / 10), DigitChar(h % 10)]
     else if padded then ['0', DigitChar(h)]
     else [DigitChar(h)])
    + [':', DigitChar(m / 10), DigitChar(m % 10)]
  }

  /** Reads hour and minute back from text of shape D:DD or DD:DD. */
  function ReadTime(s: string): (r: Option<(nat, nat)>)
    ensures r.Some? ==> |s| == 4 || |s| == 5
  {
    if |s| == 4 && s[1] == ':' && IsDigit(s[0]) && IsDigit(s[2]) && IsDigit(s[3]) then
      Some((DigitValue(s[0]), 10 * DigitValue(s[2]) + DigitValue(s[3])))
    else if |s| == 5 && s[2] == ':' && IsDigit(s[0]) && IsDigit(s[1]) && IsDigit(s[3]) && IsDigit(s[4]) then
      Some((10 * DigitValue(s[0]) + DigitValue(s[1]), 10 * DigitValue(s[3]) + DigitValue(s[4])))
    else
      None
  }

  /** The text is H:MM or HH:MM for a real time of day: an hour below 24 and
      a minute below 60, written the way TimeText writes them. */
  predicate IsClockTime(s: string) {
    match ReadTime(s)
    case Some((h, m)) => h < 24 && m < 60 && s == TimeText(h, m, |s| == 5)
    case None => false
  }

  /** Minutes since midnight of a time written as text. */
  function MinutesOf(s: string): int {
    match ReadTime(s)
    case Some((h, m)) => 60 * h + m
    case None => -1
  }

  /** Reading back what TimeText wrote gives the same hour and minute. */
  lemma ReadTimeText(h: nat, m: nat, padded: bool)
    requires h < 24 && m < 60
    ensures ReadTime(TimeText(h, m, padded)) == Some((h, m))
  {
    var s := TimeText(h, m, padded);
    if h >= 10 {
      assert s == [DigitChar(h / 10), DigitChar(h % 10), ':', DigitChar(m / 10), DigitChar(m % 10)];
    } else if padded {
      assert s == ['0', DigitChar(h), ':', DigitChar(m / 10), DigitChar(m % 10)];
    } else {
      assert s == [DigitChar(h), ':', DigitChar(m / 10), DigitChar(m % 10)];
    }
  }

  /** Text of shape DD:DD naming an hour below 24 and a minute below 60:
      a clock time written with a two-digit hour. */
  predicate IsPaddedTime(s: string) {
    && |s| == 5 && s[2] == ':'
    && IsDigit(s[0]) && IsDigit(s[1]) && IsDigit(s[3]) && IsDigit(s[4])
    && 10 * DigitValue(s[0]) + DigitValue(s[1]) < 24 && DigitValue(s[3]) < 6
  }

  /** The padded times are exactly the clock times of length five. */
  lemma PaddedTimeIsClockTime(s: string)
    ensures IsPaddedTime(s) <==> IsClockTime(s) && |s| == 5
  {
    if IsPaddedTime(s) {
      var h, m := 10 * DigitValue(s[0]) + DigitValue(s[1]), 10 * DigitValue(s[3]) + DigitValue(s[4]);
      assert ReadTime(s) == Some((h, m));
      DigitRoundTrip(s[0]); DigitRoundTrip(s[1]); DigitRoundTrip(s[3]); DigitRoundTrip(s[4]);
      assert h / 10 == DigitValue(s[0]) && h % 10 == DigitValue(s[1]);
      assert m / 10 == DigitValue(s[3]) && m % 10 == DigitValue(s[4]);
      if h >= 10 {
        assert s == TimeText(h, m, true);
      } else {
        assert s[0] == '0';
        assert s == TimeText(h, m, true);
      }
    }
    if IsClockTime(s) && |s| == 5 {
      var (h, m) := ReadTime(s).value;
      assert s == TimeText(h, m, true);
      if h >= 10 {
        assert s == [DigitChar(h / 10), DigitChar(h % 10), ':', DigitChar(m / 10), DigitChar(m % 10)];
      } else {
        assert s == ['0', DigitChar(h), ':', DigitChar(m / 10), DigitChar(m % 10)];
      }
    }
  }

  /** The time as a `time` column holds it, written HH:MM: the hour gets
      its leading zero, and the time of day is unchanged. */
  function PaddedTime(s: string): (r: string)
    requires IsClockTime(s)
    ensures IsPaddedTime(r) && IsClockTime(r)
    ensures ReadTime(r) == ReadTime(s) && MinutesOf(r) == MinutesOf(s)
  {
    var (h, m) := ReadTime(s).value;
    ReadTimeText(h, m, true);
    PaddedTimeIsClockTime(TimeText(h, m, true));
    TimeText(h, m, true)
  }

  /** Two clock times with the same minutes since midnight read as the same
      hour and minute, so they pad to the same text. */
  lemma SameMinutesSamePadding(s: string, t: string)
    requires IsClockTime(s) && IsClockTime(t) && MinutesOf(s) == MinutesOf(t)
    ensures PaddedTime(s) == PaddedTime(t)
  {
    var (h, m) := ReadTime(s).value;
    var (h', m') := ReadTime(t).value;
    assert 60 * h + m == 60 * h' + m';
    assert h == h' && m == m';
  }

  /** A padded time is a clock time and is its own padding. */
  lemma PaddedTimeFixesPadded(s: string)
    requires IsPaddedTime(s)
    ensures IsClockTime(s) && PaddedTime(s) == s
  {
    PaddedTimeIsClockTime(s);
  }
}
