/** The one date pattern the pipeline uses, "dd.MM.yyyy HH:mm:ss", read strictly: exactly
    nineteen characters with every field zero-padded to its width, no trailing text, and
    a date that exists on the Gregorian calendar. A parsed instant is represented by its key
    yyyyMMddHHmmss, which orders instants chronologically. */
module DateFormat {
  import opened Wrappers
  import opened Numbers

  datatype Timestamp = Timestamp(year: nat, month: nat, day: nat, hour: nat, minute: nat, second: nat)

  /** A leap year of the Gregorian calendar. */
  predicate LeapYear(year: nat) {
    year % 4 == 0 && (year % 100 != 0 || year % 400 == 0)
  }

  /** The number of days of a month, February having 29 in a leap year. */
  function DaysInMonth(year: nat, month: nat): (n: nat)
    requires 1 <= month <= 12
    ensures 28 <= n <= 31
    ensures month == 2 ==> (n == 29 <==> LeapYear(year))
  {
    if month == 2 then (if LeapYear(year) then 29 else 28)
    else if month == 4 || month == 6 || month == 9 || month == 11 then 30
    else 31
  }

  /** A date that exists on the calendar and a time of day. */
  predicate ValidTimestamp(t: Timestamp) {
    t.year < 10000 && 1 <= t.month <= 12 && 1 <= t.day <= DaysInMonth(t.year, t.month) &&
    t.hour < 24 && t.minute < 60 && t.second < 60
  }

  /** The ordering key of an instant. */
  function Key(t: Timestamp): int {
    ((((t.year * 100 + t.month) * 100 + t.day) * 100 + t.hour) * 100 + t.minute) * 100 + t.second
  }

  /** `t` comes strictly before `u` on the calendar and the clock. */
  predicate Earlier(t: Timestamp, u: Timestamp) {
    t.year < u.year ||
    (t.year == u.year && (t.month < u.month ||
    (t.month == u.month && (t.day < u.day ||
    (t.day == u.day && (t.hour < u.hour ||
    (t.hour == u.hour && (t.minute < u.minute ||
    (t.minute == u.minute && t.second < u.second)))))))))
  }

  /** Keys compare as the instants do, so `before`/`after` on dates are `<`/`>` on keys. */
  lemma KeyOrdersChronologically(t: Timestamp, u: Timestamp)
    requires ValidTimestamp(t) && ValidTimestamp(u)
    ensures Earlier(t, u) <==> Key(t) < Key(u)
    ensures Key(t) == Key(u) <==> t == u
  {
    var a := ((t.year * 100 + t.month) * 100 + t.day) * 100 + t.hour;
    var b := ((u.year * 100 + u.month) * 100 + u.day) * 100 + u.hour;
    var c := (t.year * 100 + t.month) * 100 + t.day;
    var d := (u.year * 100 + u.month) * 100 + u.day;
    var e := t.year * 100 + t.month;
    var f := u.year * 100 + u.month;
    assert Key(t) == (a * 100 + t.minute) * 100 + t.second;
    assert Key(u) == (b * 100 + u.minute) * 100 + u.second;
    LexPair(a, t.minute * 100 + t.second, b, u.minute * 100 + u.second, 10000);
    LexPair(t.minute, t.second, u.minute, u.second, 100);
    LexPair(c, t.hour, d, u.hour, 100);
    LexPair(e, t.day, f, u.day, 100);
    LexPair(t.year, t.month, u.year, u.month, 100);
  }

  /** Numbers written in base `m` with one low digit compare lexicographically. */
  lemma LexPair(hi1: int, lo1: int, hi2: int, lo2: int, m: int)
    requires 0 <= lo1 < m && 0 <= lo2 < m
    ensures hi1 * m + lo1 < hi2 * m + lo2 <==> hi1 < hi2 || (hi1 == hi2 && lo1 < lo2)
    ensures hi1 * m + lo1 == hi2 * m + lo2 <==> hi1 == hi2 && lo1 == lo2
  {
    if hi1 < hi2 {
      MultipleGap(hi2 - hi1, m);
      assert hi2 * m - hi1 * m == (hi2 - hi1) * m;
    } else if hi2 < hi1 {
      MultipleGap(hi1 - hi2, m);
      assert hi1 * m - hi2 * m == (hi1 - hi2) * m;
    }
  }

  lemma {:induction false} MultipleGap(x: int, m: int)
    requires x >= 1 && m >= 0
    ensures x * m >= m
  {
    if x > 1 {
      MultipleGap(x - 1, m);
      assert x * m == (x - 1) * m + m;
    }
  }

  /** The digits of `s[i..i + n]` as a number, when they are all digits. */
  function Field(s: string, i: nat, n: nat): Option<nat>
    requires i + n <= |s|
  {
    if AllDigits(s[i..i + n]) then Some(DigitsValue(s[i..i + n])) else None
  }

  /** A two-digit field read off its characters. */
  lemma TwoDigitField(s: string, i: nat)
    requires i + 2 <= |s| && IsDigit(s[i]) && IsDigit(s[i + 1])
    ensures Field(s, i, 2) == Some(10 * DigitValue(s[i]) + DigitValue(s[i + 1]))
  {
    var f := s[i..i + 2];
    assert AllDigits(f);
    assert f[..1] == [s[i]] && f[1] == s[i + 1];
    assert DigitsValue([s[i]]) == DigitValue(s[i]) by {
      assert [s[i]][..0] == [];
    }
  }

  /** A four-digit field read off its characters. */
  lemma FourDigitField(s: string, i: nat)
    requires i + 4 <= |s| && IsDigit(s[i]) && IsDigit(s[i + 1]) && IsDigit(s[i + 2]) && IsDigit(s[i + 3])
    ensures Field(s, i, 4) ==
      Some(1000 * DigitValue(s[i]) + 100 * DigitValue(s[i + 1]) + 10 * DigitValue(s[i + 2]) + DigitValue(s[i + 3]))
  {
    var f := s[i..i + 4];
    assert AllDigits(f);
    TwoDigitField(s, i);
    assert f[..3][..2] == s[i..i + 2] && f[..3][2] == s[i + 2] && f[3] == s[i + 3];
    assert DigitsValue(f[..3]) == 10 * DigitsValue(s[i..i + 2]) + DigitValue(s[i + 2]);
  }

  predicate HasSeparators(s: string) {
    |s| == 19 && s[2] == '.' && s[5] == '.' && s[10] == ' ' && s[13] == ':' && s[16] == ':'
  }

  /** `new SimpleDateFormat("dd.MM.yyyy HH:mm:ss").parse(s)`, read strictly; `None` stands
      for the ParseException. */
  function ParseTimestamp(s: string): (r: Option<int>)
    ensures r.Some? ==> HasSeparators(s)
  {
    if !HasSeparators(s) then None
    else
      var day, month, year := Field(s, 0, 2), Field(s, 3, 2), Field(s, 6, 4);
      var hour, minute, second := Field(s, 11, 2), Field(s, 14, 2), Field(s, 17, 2);
      if day.None? || month.None? || year.None? || hour.None? || minute.None? || second.None? then None
      else
        var t := Timestamp(year.value, month.value, day.value, hour.value, minute.value, second.value);
        if ValidTimestamp(t) then Some(Key(t)) else None
  }

  /** A string of the pattern whose fields are those of `t` parses to `t`'s key when `t` is
      a valid instant, and is refused otherwise. */
  lemma ReadsAs(s: string, t: Timestamp)
    requires HasSeparators(s)
    requires IsDigit(s[0]) && IsDigit(s[1]) && IsDigit(s[3]) && IsDigit(s[4])
    requires IsDigit(s[6]) && IsDigit(s[7]) && IsDigit(s[8]) && IsDigit(s[9])
    requires IsDigit(s[11]) && IsDigit(s[12]) && IsDigit(s[14]) && IsDigit(s[15]) && IsDigit(s[17]) && IsDigit(s[18])
    requires t.day == 10 * DigitValue(s[0]) + DigitValue(s[1])
    requires t.month == 10 * DigitValue(s[3]) + DigitValue(s[4])
    requires t.year == 1000 * DigitValue(s[6]) + 100 * DigitValue(s[7]) + 10 * DigitValue(s[8]) + DigitValue(s[9])
    requires t.hour == 10 * DigitValue(s[11]) + DigitValue(s[12])
    requires t.minute == 10 * DigitValue(s[14]) + DigitValue(s[15])
    requires t.second == 10 * DigitValue(s[17]) + DigitValue(s[18])
    ensures ParseTimestamp(s) == if ValidTimestamp(t) then Some(Key(t)) else None
  {
    TwoDigitField(s, 0);
    TwoDigitField(s, 3);
    FourDigitField(s, 6);
    TwoDigitField(s, 11);
    TwoDigitField(s, 14);
    TwoDigitField(s, 17);
  }

  /** `n` written with exactly `width` digits, zero-padded on the left. */
  function Pad(n: nat, width: nat): (s: string)
    ensures |s| == width && AllDigits(s)
    ensures n < Pow10(width) ==> DigitsValue(s) == n
  {
    if width == 0 then ""
    else
      var s := Pad(n / 10, width - 1) + [DigitChar(n % 10)];
      assert s[..|s| - 1] == Pad(n / 10, width - 1);
      s
  }

  /** The instant written in the pattern. */
  function FormatTimestamp(t: Timestamp): (s: string)
    ensures |s| == 19
  {
    Pad(t.day, 2) + "." + Pad(t.month, 2) + "." + Pad(t.year, 4) + " " +
    Pad(t.hour, 2) + ":" + Pad(t.minute, 2) + ":" + Pad(t.second, 2)
  }

  /** Reading back a written instant gives its key. */
  lemma ParseFormatted(t: Timestamp)
    requires ValidTimestamp(t)
    ensures ParseTimestamp(FormatTimestamp(t)) == Some(Key(t))
  {
    var s := FormatTimestamp(t);
    assert Pow10(2) == 100 && Pow10(4) == 10000;
    Layout(s, Pad(t.day, 2), Pad(t.month, 2), Pad(t.year, 4), Pad(t.hour, 2), Pad(t.minute, 2), Pad(t.second, 2));
    PaddedField(s, 0, 2, t.day);
    PaddedField(s, 3, 2, t.month);
    PaddedField(s, 6, 4, t.year);
    PaddedField(s, 11, 2, t.hour);
    PaddedField(s, 14, 2, t.minute);
    PaddedField(s, 17, 2, t.second);
  }

  /** Where the six fields and five separators sit in a written instant. */
  lemma Layout(s: string, day: string, month: string, year: string, hour: string, minute: string, second: string)
    requires |day| == |month| == |hour| == |minute| == |second| == 2 && |year| == 4
    requires s == day + "." + month + "." + year + " " + hour + ":" + minute + ":" + second
    ensures HasSeparators(s)
    ensures s[0..2] == day && s[3..5] == month && s[6..10] == year
    ensures s[11..13] == hour && s[14..16] == minute && s[17..19] == second
  {
    var date := day + "." + month + "." + year;
    var time := hour + ":" + minute + ":" + second;
    assert s == date + " " + time;
    assert |date| == 10 && |time| == 8;
    assert s[..10] == date && s[11..] == time;
    assert date[0..2] == day && date[3..5] == month && date[6..10] == year;
    assert time[0..2] == hour && time[3..5] == minute && time[6..8] == second;
  }

  /** A field written zero-padded to its width reads back as its value. */
  lemma PaddedField(s: string, i: nat, width: nat, n: nat)
    requires i + width <= |s| && s[i..i + width] == Pad(n, width) && n < Pow10(width)
    ensures Field(s, i, width) == Some(n)
  {
  }

  /** A string that is nothing but digit fields and separators contains no letter. */
  lemma TimestampHasNoLetter(s: string, c: char)
    requires ParseTimestamp(s).Some?
    requires c != '.' && c != ' ' && c != ':' && !IsDigit(c)
    ensures c !in s
  {
    assert AllDigits(s[0..2]) && AllDigits(s[3..5]) && AllDigits(s[6..10]);
    assert AllDigits(s[11..13]) && AllDigits(s[14..16]) && AllDigits(s[17..19]);
    forall k | 0 <= k < |s| ensures s[k] != c {
      if k < 2 { assert s[k] == s[0..2][k]; }
      else if 2 < k < 5 { assert s[k] == s[3..5][k - 3]; }
      else if 5 < k < 10 { assert s[k] == s[6..10][k - 6]; }
      else if 10 < k < 13 { assert s[k] == s[11..13][k - 11]; }
      else if 13 < k < 16 { assert s[k] == s[14..16][k - 14]; }
      else if 16 < k { assert s[k] == s[17..19][k - 17]; }
    }
  }
}
