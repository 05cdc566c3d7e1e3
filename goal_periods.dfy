/**
 * Period keys and their labels for goals (utils/goals.ts). A key names the
 * period a date falls in ("2024-05", "2024-Q2", "2024-W07", ...), and a label
 * renders a key for people ("Mai / 2024", "Semana 07 de 2024", ...).
 */
module GoalPeriods {
  import opened Wrappers
  import opened Text
  import opened Dates

  /** The `GoalPeriod` names. */
  const Daily: string := "Diário"
  const Weekly: string := "Semanal"
  const Monthly: string := "Mensal"
  const Quarterly: string := "Trimestral"
  const Semiannual: string := "Semestral"
  const Annual: string := "Anual"

  /** The zero-based day of the year of a date: whole days since January 1st. */
  function DayOfYear(now: Civil): (n: int)
    requires now.Valid()
    ensures 0 <= n < DaysInYear(now.year)
  {
    YearLength(now.year);
    MonthBeforeYearEnd(now.year, now.month);
    DayNumber(now) - DayNumber(Civil(now.year, 0, 1))
  }

  lemma MonthBeforeYearEnd(y: int, m: int)
    requires 0 <= m < 12
    ensures MonthStart(y, m) + DaysInMonth(y, m) <= MonthStart(y, 12)
    decreases 12 - m
  {
    if m < 11 {
      MonthBeforeYearEnd(y, m + 1);
    }
  }

  /** `Math.ceil((days + firstDayOfYear.getDay() + 1) / 7)`. */
  function WeekNumber(now: Civil): (w: int)
    requires now.Valid()
    ensures 1 <= w <= 54
  {
    var days := DayOfYear(now);
    var wd := Weekday(DayNumber(Civil(now.year, 0, 1)));
    (days + wd + 1 + 6) / 7
  }

  function Quarter(month: int): (q: int)
    requires 0 <= month < 12
    ensures 1 <= q <= 4
    ensures 3 * (q - 1) <= month < 3 * q
  {
    month / 3 + 1
  }

  function Semester(month: int): (s: int)
    requires 0 <= month < 12
    ensures s == 1 || s == 2
    ensures s == 1 <==> month < 6
  {
    if month < 6 then 1 else 2
  }

  /** `getCurrentPeriodKey(period)` with "now" as a parameter. */
  function CurrentPeriodKey(period: string, now: Civil): (key: string)
    requires now.Valid()
    ensures IntToString(now.year) <= key
    ensures key == IntToString(now.year) <==> period == Annual
  {
    var year := IntToString(now.year);
    var month := Pad2(IntToString(now.month + 1));
    if period == Daily then year + "-" + month + "-" + Pad2(IntToString(now.day))
    else if period == Weekly then year + "-W" + Pad2(IntToString(WeekNumber(now)))
    else if period == Monthly then year + "-" + month
    else if period == Quarterly then year + "-Q" + IntToString(Quarter(now.month))
    else if period == Semiannual then year + "-S" + IntToString(Semester(now.month))
    else if period == Annual then year
    else year + "-" + month
  }

  /** A two-digit rendering of a number below 100, as `padStart(2, '0')` gives it. */
  lemma Pad2Digits(n: nat)
    requires n < 100
    ensures |Pad2(IntToString(n))| == 2 && AllDigits(Pad2(IntToString(n)))
  {
    if n >= 10 {
      assert n / 10 < 10;
      assert |NatToDigits(n)| == 2;
    }
  }

  /** Monthly and unrecognised periods both give "YYYY-MM", the month padded to two digits. */
  lemma MonthlyKeyShape(period: string, now: Civil)
    requires now.Valid()
    requires period !in {Daily, Weekly, Quarterly, Semiannual, Annual}
    ensures CurrentPeriodKey(period, now) == IntToString(now.year) + "-" + Pad2(IntToString(now.month + 1))
    ensures |Pad2(IntToString(now.month + 1))| == 2
  {
    assert period != Daily && period != Weekly && period != Quarterly && period != Semiannual && period != Annual;
    var month := Pad2(IntToString(now.month + 1));
    assert CurrentPeriodKey(period, now) == IntToString(now.year) + "-" + month;
    Pad2Digits(now.month + 1);
  }

  const MonthAbbrev: seq<string> := ["Jan", "Fev", "Mar", "Abr", "Mai", "Jun", "Jul", "Ago", "Set", "Out", "Nov", "Dez"]

  /** `months[parseInt(suffix) - 1]` in a template, where a missing entry prints "undefined". */
  function MonthName(suffix: string): (name: string)
    ensures ParseInt(suffix).Some? && 1 <= ParseInt(suffix).value <= 12 ==> name == MonthAbbrev[ParseInt(suffix).value - 1]
  {
    match ParseInt(suffix)
    case Some(n) => if 1 <= n <= 12 then MonthAbbrev[n - 1] else "undefined"
    case None => "undefined"
  }

  function StartsWith(s: string, c: char): bool {
    s != [] && s[0] == c
  }

  /**
   * `getPeriodLabel(periodKey)` as written: the quarter and semester cases
   * replace the leading letter with the ordinal text, so the number ends up
   * after it ("º Trimestre2 de 2024").
   */
  function PeriodLabel(key: string): (caption: string)
    ensures key == "" ==> caption == "Período Desconhecido"
  {
    if key == "" then "Período Desconhecido" else LabelOfParts(Split(key, "-"))
  }


  /** The label of a non-empty key from the pieces between its dashes. */
  function LabelOfParts(parts: seq<string>): (caption: string)
    requires |parts| >= 1
  {
    if |parts| == 1 then "Ano " + parts[0]
    else
      var year := parts[0];
      var suffix := parts[1];
      if StartsWith(suffix, 'Q') then ReplaceFirst(suffix, 'Q', "º Trimestre") + " de " + year
      else if StartsWith(suffix, 'S') then ReplaceFirst(suffix, 'S', "º Semestre") + " de " + year
      else if StartsWith(suffix, 'W') then "Semana " + ReplaceFirst(suffix, 'W', "") + " de " + year
      else if |parts| == 3 then parts[2] + "/" + parts[1] + "/" + year
      else MonthName(suffix) + " / " + year
  }

  /** The label the quarter and semester branches evidently intend: "2º Trimestre de 2024". */
  function IntendedPeriodLabel(key: string): (caption: string)
  {
    if key == "" then "Período Desconhecido" else IntendedLabelOfParts(Split(key, "-"))
  }

  function IntendedLabelOfParts(parts: seq<string>): (caption: string)
    requires |parts| >= 1
  {
    if |parts| >= 2 && StartsWith(parts[1], 'Q') then ReplaceFirst(parts[1], 'Q', "") + "º Trimestre de " + parts[0]
    else if |parts| >= 2 && StartsWith(parts[1], 'S') then ReplaceFirst(parts[1], 'S', "") + "º Semestre de " + parts[0]
    else LabelOfParts(parts)
  }

  /** The two labels differ only on quarter and semester keys. */
  lemma IntendedLabelAgrees(key: string)
    ensures key == "" || |Split(key, "-")| == 1
         || !(StartsWith(Split(key, "-")[1], 'Q') || StartsWith(Split(key, "-")[1], 'S'))
        ==> IntendedPeriodLabel(key) == PeriodLabel(key)
  {
  }

  /** A key assembled from dash-free pieces splits back into those pieces. */
  lemma SplitKey(parts: seq<string>)
    requires |parts| >= 2
    requires forall k :: 0 <= k < |parts| ==> '-' !in parts[k]
    ensures Join(parts, "-") != ""
    ensures Split(Join(parts, "-"), "-") == parts
  {
    SplitJoin(parts, '-');
    assert Join(parts, "-") == parts[0] + "-" + Join(parts[1..], "-");
  }

  /** The label of "Y-Q<n>" as written: the ordinal text, then the number, then the year. */
  lemma QuarterLabelAsWritten(year: string, n: string)
    requires year != "" && '-' !in year && '-' !in n
    ensures PeriodLabel(year + "-" + ['Q'] + n) == "º Trimestre" + n + " de " + year
  {
    var parts := TaggedKeySplits(year, 'Q', n);
    assert PeriodLabel(year + "-" + ['Q'] + n) == LabelOfParts(parts);
  }

  lemma SemesterLabelAsWritten(year: string, n: string)
    requires year != "" && '-' !in year && '-' !in n
    ensures PeriodLabel(year + "-" + ['S'] + n) == "º Semestre" + n + " de " + year
  {
    var parts := TaggedKeySplits(year, 'S', n);
    assert PeriodLabel(year + "-" + ['S'] + n) == LabelOfParts(parts);
  }

  /** The label of a quarter key puts the ordinal text before the quarter's number. */
  lemma QuarterLabelMisplaced()
    ensures PeriodLabel("2024-Q2") == "º Trimestre2 de 2024"
  {
    assert PeriodLabel("2024" + "-" + ['Q'] + "2") == "º Trimestre" + "2" + " de " + "2024" by {
      DigitsHaveNoDash("2024");
      DigitsHaveNoDash("2");
      QuarterLabelAsWritten("2024", "2");
    }
    assert "2024" + "-" + ['Q'] + "2" == "2024-Q2";
    assert "º Trimestre" + "2" + " de " + "2024" == "º Trimestre2 de 2024";
  }

  /** The same holds of semester keys. */
  lemma SemesterLabelMisplaced()
    ensures PeriodLabel("2024-S1") == "º Semestre1 de 2024"
  {
    assert PeriodLabel("2024" + "-" + ['S'] + "1") == "º Semestre" + "1" + " de " + "2024" by {
      DigitsHaveNoDash("2024");
      DigitsHaveNoDash("1");
      SemesterLabelAsWritten("2024", "1");
    }
    assert "2024" + "-" + ['S'] + "1" == "2024-S1";
    assert "º Semestre" + "1" + " de " + "2024" == "º Semestre1 de 2024";
  }

  lemma DigitsHaveNoDash(s: string)
    requires AllDigits(s)
    ensures '-' !in s
  {
  }

  lemma YearText(y: int)
    requires y >= 0
    ensures '-' !in IntToString(y) && IntToString(y) != ""
  {
    IntToStringNoSeparator(y);
  }

  /** An empty key is unknown, and any other key without a dash is read as a year. */
  lemma DashFreeLabel(key: string)
    requires '-' !in key
    ensures PeriodLabel(key) == if key == "" then "Período Desconhecido" else "Ano " + key
  {
    forall j | 0 <= j < |key| ensures !OccursAt(key, "-", j) {
      assert key[j..j + 1][0] == key[j];
    }
    assert IndexOf(key, "-") == None;
  }

  /** The label of an annual key is "Ano YYYY". */
  lemma AnnualLabel(now: Civil)
    requires now.Valid() && now.year >= 0
    ensures PeriodLabel(CurrentPeriodKey(Annual, now)) == "Ano " + IntToString(now.year)
  {
    YearText(now.year);
    DashFreeLabel(IntToString(now.year));
  }

  /** The intended label of a quarter key is "<q>º Trimestre de YYYY". */
  lemma QuarterLabel(now: Civil)
    requires now.Valid() && now.year >= 0
    ensures IntendedPeriodLabel(CurrentPeriodKey(Quarterly, now))
         == IntToString(Quarter(now.month)) + "º Trimestre de " + IntToString(now.year)
  {
    var year := IntToString(now.year);
    var n := IntToString(Quarter(now.month));
    assert CurrentPeriodKey(Quarterly, now) == year + "-" + ['Q'] + n;
    YearText(now.year);
    YearText(Quarter(now.month));
    QuarterKeyLabel(year, n);
  }

  /** The intended label of a semester key is "<s>º Semestre de YYYY". */
  lemma SemesterLabel(now: Civil)
    requires now.Valid() && now.year >= 0
    ensures IntendedPeriodLabel(CurrentPeriodKey(Semiannual, now))
         == IntToString(Semester(now.month)) + "º Semestre de " + IntToString(now.year)
  {
    var year := IntToString(now.year);
    var n := IntToString(Semester(now.month));
    assert CurrentPeriodKey(Semiannual, now) == year + "-" + ['S'] + n;
    YearText(now.year);
    YearText(Semester(now.month));
    SemesterKeyLabel(year, n);
  }

  /** A key "Y-<tag><n>" whose pieces hold no dash splits into the year and the tagged number. */
  lemma TaggedKeySplits(year: string, tag: char, n: string) returns (parts: seq<string>)
    requires year != "" && '-' !in year && '-' !in n && tag != '-'
    ensures parts == [year, [tag] + n]
    ensures year + "-" + [tag] + n != "" && Split(year + "-" + [tag] + n, "-") == parts
    ensures StartsWith(parts[1], tag) && parts[1][1..] == n
  {
    var suffix := [tag] + n;
    parts := [year, suffix];
    assert year + "-" + [tag] + n == Join(parts, "-");
    assert '-' !in suffix;
    SplitKey(parts);
    assert suffix[1..] == n;
  }

  lemma QuarterKeyLabel(year: string, n: string)
    requires year != "" && '-' !in year && '-' !in n
    ensures IntendedPeriodLabel(year + "-" + ['Q'] + n) == n + "º Trimestre de " + year
  {
    var parts := TaggedKeySplits(year, 'Q', n);
    assert IntendedPeriodLabel(year + "-" + ['Q'] + n) == IntendedLabelOfParts(parts);
  }

  lemma SemesterKeyLabel(year: string, n: string)
    requires year != "" && '-' !in year && '-' !in n
    ensures IntendedPeriodLabel(year + "-" + ['S'] + n) == n + "º Semestre de " + year
  {
    var parts := TaggedKeySplits(year, 'S', n);
    assert IntendedPeriodLabel(year + "-" + ['S'] + n) == IntendedLabelOfParts(parts);
  }

  lemma WeekKeyLabel(year: string, n: string)
    requires year != "" && '-' !in year && '-' !in n
    ensures PeriodLabel(year + "-" + ['W'] + n) == "Semana " + n + " de " + year
  {
    var parts := TaggedKeySplits(year, 'W', n);
    assert PeriodLabel(year + "-" + ['W'] + n) == LabelOfParts(parts);
  }

  /** The label of a weekly key is "Semana WW de YYYY". */
  lemma WeekLabel(now: Civil)
    requires now.Valid() && now.year >= 0
    ensures PeriodLabel(CurrentPeriodKey(Weekly, now))
         == "Semana " + Pad2(IntToString(WeekNumber(now))) + " de " + IntToString(now.year)
  {
    var year := IntToString(now.year);
    var w := Pad2(IntToString(WeekNumber(now)));
    assert CurrentPeriodKey(Weekly, now) == year + "-" + ['W'] + w;
    YearText(now.year);
    Pad2Digits(WeekNumber(now));
    assert IsDigit(w[0]) && IsDigit(w[1]);
    WeekKeyLabel(year, w);
  }

  /** The label of a daily key is "DD/MM/YYYY". */
  lemma DailyLabel(now: Civil)
    requires now.Valid() && now.year >= 0
    ensures PeriodLabel(CurrentPeriodKey(Daily, now))
         == Pad2(IntToString(now.day)) + "/" + Pad2(IntToString(now.month + 1)) + "/" + IntToString(now.year)
  {
    var year := IntToString(now.year);
    var m := Pad2(IntToString(now.month + 1));
    var d := Pad2(IntToString(now.day));
    assert CurrentPeriodKey(Daily, now) == year + "-" + m + "-" + d;
    YearText(now.year);
    Pad2Digits(now.month + 1);
    Pad2Digits(now.day);
    DayLabel(year, m, d);
  }

  lemma DayLabel(year: string, m: string, d: string)
    requires year != "" && '-' !in year
    requires |m| == 2 && AllDigits(m) && |d| == 2 && AllDigits(d)
    ensures PeriodLabel(year + "-" + m + "-" + d) == d + "/" + m + "/" + year
  {
    var key := year + "-" + m + "-" + d;
    assert '-' !in m && '-' !in d;
    assert Join([m, d], "-") == m + "-" + d;
    assert [year, m, d][1..] == [m, d];
    assert key == Join([year, m, d], "-");
    SplitKey([year, m, d]);
    assert PeriodLabel(key) == LabelOfParts([year, m, d]);
    assert !StartsWith(m, 'Q') && !StartsWith(m, 'S') && !StartsWith(m, 'W');
  }

  /** The label of a monthly key is "<abbreviation> / YYYY", the month read back from its padded digits. */
  lemma MonthlyLabel(period: string, now: Civil)
    requires now.Valid() && now.year >= 0
    requires period !in {Daily, Weekly, Quarterly, Semiannual, Annual}
    ensures PeriodLabel(CurrentPeriodKey(period, now)) == MonthAbbrev[now.month] + " / " + IntToString(now.year)
  {
    MonthlyKeyShape(period, now);
    YearText(now.year);
    MonthLabel(IntToString(now.year), now.month);
  }

  lemma MonthLabel(year: string, month: int)
    requires year != "" && '-' !in year && 0 <= month < 12
    ensures PeriodLabel(year + "-" + Pad2(IntToString(month + 1))) == MonthAbbrev[month] + " / " + year
  {
    var m := Pad2(IntToString(month + 1));
    var key := year + "-" + m;
    Pad2Digits(month + 1);
    assert IsDigit(m[0]) && IsDigit(m[1]);
    assert '-' !in m;
    assert key == Join([year, m], "-");
    SplitKey([year, m]);
    assert PeriodLabel(key) == LabelOfParts([year, m]);
    assert !StartsWith(m, 'Q') && !StartsWith(m, 'S') && !StartsWith(m, 'W');
    assert LabelOfParts([year, m]) == MonthName(m) + " / " + year;
    ParseIntPad2(month + 1);
    assert MonthName(m) == MonthAbbrev[month];
  }
}
