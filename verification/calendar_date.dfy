/** The calendar dates behind `datetime.strptime(date, "%Y-%m-%d")`: which
    strings are accepted and which date they denote, plus the canonical
    `YYYY-MM-DD` rendering and its round trip. */
module CalendarDate {
  import opened Wrappers
  import opened Text

  /** A proleptic Gregorian date as Python's `datetime` holds it. */
  datatype Date = Date(year: int, month: int, day: int)

  predicate IsLeapYear(y: int) {
    y % 4 == 0 && (y % 100 != 0 || y % 400 == 0)
  }

  function DaysInMonth(y: int, m: int): (r: int)
    requires 1 <= m <= 12
    ensures 28 <= r <= 31
    ensures m == 2 ==> (r == 29 <==> IsLeapYear(y))
    ensures m != 2 ==> (r == 31 <==> m in {1, 3, 5, 7, 8, 10, 12})
    ensures r == 30 <==> m in {4, 6, 9, 11}
    ensures m == 2 && !IsLeapYear(y) ==> r == 28
  {
    if m == 2 then (if IsLeapYear(y) then 29 else 28)
    else if m in {4, 6, 9, 11} then 30
    else 31
  }

  /** The dates `datetime` can represent (years 1 to 9999). */
  predicate ValidDate(d: Date) {
    1 <= d.year <= 9999 && 1 <= d.month <= 12 && 1 <= d.day <= DaysInMonth(d.year, d.month)
  }

  predicate NonZeroDigit(c: char) {
    '1' <= c <= '9'
  }

  /** The text the `%m` directive accepts: `1[0-2]`, `0[1-9]` or `[1-9]`. */
  predicate MonthToken(t: string) {
    (|t| == 1 && NonZeroDigit(t[0]))
    || (|t| == 2 && t[0] == '0' && NonZeroDigit(t[1]))
    || (|t| == 2 && t[0] == '1' && '0' <= t[1] <= '2')
  }

  /** The text the `%d` directive accepts: `3[01]`, `[12]\d`, `0[1-9]`,
      `[1-9]` or a blank followed by `[1-9]`. */
  predicate DayToken(t: string) {
    (|t| == 1 && NonZeroDigit(t[0]))
    || (|t| == 2 && (t[0] == ' ' || t[0] == '0') && NonZeroDigit(t[1]))
    || (|t| == 2 && (t[0] == '1' || t[0] == '2') && IsDigit(t[1]))
    || (|t| == 2 && t[0] == '3' && (t[1] == '0' || t[1] == '1'))
  }

  /** The number a month or day token spells; a leading blank reads as zero. */
  function TokenValue(t: string): (r: nat)
    requires MonthToken(t) || DayToken(t)
    ensures ' ' !in t ==> AllDigits(t) && r == DigitsValue(t)
    ensures MonthToken(t) ==> 1 <= r <= 12
    ensures DayToken(t) ==> 1 <= r <= 31
  {
    if |t| == 1 then
      assert t[..0] == [];
      DigitValue(t[0])
    else
      if t[0] == ' ' then DigitValue(t[1])
      else
        TwoDigitsValue(t);
        DigitValue(t[0]) * 10 + DigitValue(t[1])
  }

  /** `datetime.strptime(s, "%Y-%m-%d")`: four digits, a dash, a month
      token, a dash and a day token filling the rest of the string, naming
      a date that exists; `None` stands for the `ValueError`. */
  function ParseDate(s: string): (r: Option<Date>)
    ensures r.Some? ==> ValidDate(r.value)
    ensures r.Some? ==> 8 <= |s| <= 10 && s[4] == '-' && AllDigits(s[..4])
                        && DigitsValue(s[..4]) == r.value.year
    ensures r.Some? ==> '/' !in s
    ensures r.Some? ==> '-' in s[5..]
  {
    if |s| < 5 || !AllDigits(s[..4]) || s[4] != '-' then None
    else
      var rest := s[5..];
      if '-' !in rest then None
      else
        var j := IndexOf(rest, '-');
        var mt := rest[..j];
        var dt := rest[j + 1..];
        if !MonthToken(mt) || !DayToken(dt) then None
        else
          var d := Date(DigitsValue(s[..4]), TokenValue(mt), TokenValue(dt));
          if !ValidDate(d) then None
          else
            assert s == s[..4] + "-" + mt + "-" + dt;
            DashedHasNoSlash(s[..4], mt, dt);
            Some(d)
  }

  lemma DashedHasNoSlash(y: string, mt: string, dt: string)
    requires AllDigits(y) && (MonthToken(mt) || DayToken(mt)) && DayToken(dt)
    ensures '/' !in y + "-" + mt + "-" + dt
  {
    var s := y + "-" + mt + "-" + dt;
    forall i | 0 <= i < |s| ensures s[i] != '/' {
      if i < |y| {
        assert s[i] == y[i];
      } else if |y| < i < |y| + 1 + |mt| {
        assert s[i] == mt[i - |y| - 1];
      } else if |y| + 1 + |mt| < i {
        assert s[i] == dt[i - |y| - 2 - |mt|];
      }
    }
  }

  /** `f"{d.year:04d}-{d.month:02d}-{d.day:02d}"`, the ISO form of a date. */
  function FormatIsoDate(d: Date): (r: string)
    requires ValidDate(d)
    ensures |r| == 10 && r[4] == '-' && r[7] == '-'
    ensures ' ' !in r && '/' !in r
  {
    Pad4(d.year) + "-" + Pad2(d.month) + "-" + Pad2(d.day)
  }

  /** Every valid date survives rendering and re-parsing. */
  lemma ParseFormatted(d: Date)
    requires ValidDate(d)
    ensures ParseDate(FormatIsoDate(d)) == Some(d)
  {
    var s := FormatIsoDate(d);
    var y := Pad4(d.year);
    var m := Pad2(d.month);
    var dd := Pad2(d.day);
    assert s[..4] == y;
    var rest := s[5..];
    assert rest == m + "-" + dd;
    assert rest[2] == '-';
    assert '-' !in rest[..2];
    assert IndexOf(rest, '-') == 2;
    assert rest[..2] == m;
    assert rest[3..] == dd;
  }

  /** A ten-character string without blanks that parses is exactly the ISO
      form of the date it denotes. */
  lemma {:induction false} ParsedTenCharsAreCanonical(s: string)
    requires ParseDate(s).Some?
    requires |s| == 10 && ' ' !in s
    ensures FormatIsoDate(ParseDate(s).value) == s
  {
    var d := ParseDate(s).value;
    var rest := s[5..];
    var j := IndexOf(rest, '-');
    var mt := rest[..j];
    var dt := rest[j + 1..];
    assert s == s[..4] + "-" + mt + "-" + dt;
    assert |mt| == 2 && |dt| == 2;
    assert ' ' !in dt by {
      assert forall k :: 0 <= k < |dt| ==> dt[k] == s[6 + j + k];
    }
    assert Pad4(d.year) == s[..4] by {
      Pad4Unique(s[..4]);
    }
    assert Pad2(d.month) == mt by {
      Pad2Unique(mt);
    }
    assert Pad2(d.day) == dt by {
      Pad2Unique(dt);
    }
  }

  /** A four-digit string is the padded rendering of its own value. */
  lemma Pad4Unique(t: string)
    requires |t| == 4 && AllDigits(t)
    ensures DigitsValue(t) < 10000 && Pad4(DigitsValue(t)) == t
  {
    var hi := t[..2];
    var lo := t[2..];
    assert t == hi + lo;
    DigitsAppend(hi, lo);
    Pad2Unique(hi);
    Pad2Unique(lo);
    var n, a, b := DigitsValue(t), DigitsValue(hi), DigitsValue(lo);
    assert n == a * 100 + b && b < 100;
    assert n / 100 == a && n % 100 == b;
  }

  /** The value of a four-digit string, digit by digit. */
  lemma FourDigitsValue(t: string)
    requires |t| == 4 && AllDigits(t)
    ensures DigitsValue(t) == DigitValue(t[0]) * 1000 + DigitValue(t[1]) * 100
                              + DigitValue(t[2]) * 10 + DigitValue(t[3])
  {
    var hi := t[..2];
    var lo := t[2..];
    assert t == hi + lo;
    DigitsAppend(hi, lo);
    TwoDigitsValue(hi);
    TwoDigitsValue(lo);
  }

  /** A two-digit string is the padded rendering of its own value. */
  lemma Pad2Unique(t: string)
    requires |t| == 2 && AllDigits(t)
    ensures DigitsValue(t) < 100 && Pad2(DigitsValue(t)) == t
  {
    TwoDigitsValue(t);
    var n := DigitsValue(t);
    assert n / 10 == DigitValue(t[0]) && n % 10 == DigitValue(t[1]);
    assert DigitChar(n / 10) == t[0];
    assert DigitChar(n % 10) == t[1];
  }

  /** A string already split at its dashes parses exactly when its month
      and day fields are tokens of the format and name an existing date. */
  lemma ParseDashed(y: string, m: string, d: string)
    requires |y| == 4 && AllDigits(y) && '-' !in m
    ensures ParseDate(y + "-" + m + "-" + d) ==
      if MonthToken(m) && DayToken(d)
         && ValidDate(Date(DigitsValue(y), TokenValue(m), TokenValue(d)))
      then Some(Date(DigitsValue(y), TokenValue(m), TokenValue(d)))
      else None
  {
    var s := y + "-" + m + "-" + d;
    assert s[..4] == y;
    var rest := s[5..];
    assert rest == m + "-" + d;
    assert rest[|m|] == '-';
    assert IndexOf(rest, '-') == |m|;
    assert rest[..|m|] == m;
    assert rest[|m| + 1..] == d;
  }

  /** Sufficient conditions for a dashed string to parse to a given date. */
  lemma ParsesTo(y: string, m: string, d: string, date: Date)
    requires |y| == 4 && AllDigits(y) && '-' !in m
    requires MonthToken(m) && DayToken(d) && ValidDate(date)
    requires DigitsValue(y) == date.year && TokenValue(m) == date.month && TokenValue(d) == date.day
    ensures ParseDate(y + "-" + m + "-" + d) == Some(date)
  {
    ParseDashed(y, m, d);
  }

  /** The ISO form of a date parses. */
  lemma ParsesIsoDate()
    ensures ParseDate("2024-11-05") == Some(Date(2024, 11, 5))
  {
    FourDigitsValue("2024");
    assert TokenValue("11") == 11 && TokenValue("05") == 5;
    ParsesTo("2024", "11", "05", Date(2024, 11, 5));
    assert "2024" + "-" + "11" + "-" + "05" == "2024-11-05";
  }

  /** Month and day need no zero padding. */
  lemma ParsesUnpaddedFields()
    ensures ParseDate("2024-1-5") == Some(Date(2024, 1, 5))
  {
    FourDigitsValue("2024");
    assert TokenValue("1") == 1 && TokenValue("5") == 5;
    ParsesTo("2024", "1", "5", Date(2024, 1, 5));
    assert "2024" + "-" + "1" + "-" + "5" == "2024-1-5";
  }

  /** A day may be padded with a blank. */
  lemma ParsesBlankPaddedDay()
    ensures ParseDate("2024-01- 5") == Some(Date(2024, 1, 5))
  {
    FourDigitsValue("2024");
    assert TokenValue("01") == 1 && TokenValue(" 5") == 5;
    ParsesTo("2024", "01", " 5", Date(2024, 1, 5));
    assert "2024" + "-" + "01" + "-" + " 5" == "2024-01- 5";
  }

  /** February 29 exists in a leap year. */
  lemma ParsesLeapDay()
    ensures ParseDate("2024-02-29") == Some(Date(2024, 2, 29))
  {
    FourDigitsValue("2024");
    assert TokenValue("02") == 2 && TokenValue("29") == 29;
    ParsesTo("2024", "02", "29", Date(2024, 2, 29));
    assert "2024" + "-" + "02" + "-" + "29" == "2024-02-29";
  }

  /** February 29 does not exist in a common year. */
  lemma RejectsMissingLeapDay()
    ensures ParseDate("2023-02-29") == None
  {
    FourDigitsValue("2023");
    assert !ValidDate(Date(2023, 2, 29));
    ParseDashed("2023", "02", "29");
    assert "2023" + "-" + "02" + "-" + "29" == "2023-02-29";
  }

  /** There is no thirteenth month. */
  lemma RejectsMonthThirteen()
    ensures ParseDate("2024-13-01") == None
  {
    FourDigitsValue("2024");
    assert !MonthToken("13");
    ParseDashed("2024", "13", "01");
    assert "2024" + "-" + "13" + "-" + "01" == "2024-13-01";
  }

  /** Year 0 is outside the representable range. */
  lemma RejectsYearZero()
    ensures ParseDate("0000-01-01") == None
  {
    FourDigitsValue("0000");
    assert !ValidDate(Date(0, 1, 1));
    ParseDashed("0000", "01", "01");
    assert "0000" + "-" + "01" + "-" + "01" == "0000-01-01";
  }

  /** Only dashes separate the fields. */
  lemma RejectsSlashes()
    ensures ParseDate("2024/11/05") == None
  {
    assert "2024/11/05"[4] == '/';
  }
}
