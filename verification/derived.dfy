/**
 * The derived fields both dashboard tables and their spreadsheet export show:
 * the warranty label, the time in use, the calendar-year age behind the row
 * highlight, and the icon chosen for an attached file.
 */
module Derived {
  import opened Text
  import opened Inventory

  // ---------------------------------------------------------------------------
  // Warranty duration
  // ---------------------------------------------------------------------------

  /** The number-words the warranty text may start with; the word at index k stands for k + 1. */
  const NumberWords: seq<string> := ["one", "two", "three", "four", "five"]

  /** The lookup in the five-entry warranty table; any other word falls back to 0. */
  function WarrantyNumber(word: string): (n: nat)
    ensures n <= 5
    ensures n > 0 <==> word in NumberWords
    ensures n > 0 ==> NumberWords[n - 1] == word
  {
    if word == "one" then 1
    else if word == "two" then 2
    else if word == "three" then 3
    else if word == "four" then 4
    else if word == "five" then 5
    else 0
  }

  /** The first element of `s.split(" ")`: everything before the first space. */
  function FirstWord(s: string): (w: string)
    ensures ' ' !in w
  {
    SplitPiecesFree(s, ' ');
    Split(s, ' ')[0]
  }

  /** The number of years `convertWarrantyToNumber` reads from the warranty text. */
  function WarrantyYears(warranty: string): (n: nat)
    ensures n <= 5
  {
    WarrantyNumber(FirstWord(Lower(warranty)))
  }

  /** `"<n> year"`, with an "s" only for more than one year. */
  function WarrantyLabel(n: nat): (text: string)
    ensures |text| >= |NatToString(n)| + 5 && text[..|NatToString(n)| + 5] == NatToString(n) + " year"
    ensures text[|text| - 1] == 's' <==> n > 1
  {
    NatToString(n) + UnitSuffix(n)
  }

  /** `" year"`, or `" years"` for more than one. */
  function UnitSuffix(n: nat): (suffix: string)
    ensures |suffix| >= 5 && (suffix[|suffix| - 1] == 's' <==> n > 1)
  {
    if n > 1 then " years" else " year"
  }

  /** `convertWarrantyToNumber`: the label of the leading number-word of the warranty text. */
  function ConvertWarrantyToNumber(warranty: string): (caption: string)
    ensures exists n :: 0 <= n <= 5 && caption == WarrantyLabel(n)
  {
    WarrantyLabel(WarrantyYears(warranty))
  }

  /** Only the first word counts, case-insensitively: text after the first space is ignored. */
  lemma WarrantyIgnoresTrailingText(word: string, rest: string)
    requires ' ' !in word
    ensures WarrantyYears(word + " " + rest) == WarrantyYears(word)
    ensures WarrantyYears(word) == WarrantyNumber(Lower(word))
  {
    LowerAppend(word + " ", rest);
    LowerAppend(word, " ");
    assert Lower(" ") == " ";
    LowerKeeps(word, ' ');
    SplitAfterFirst(Lower(word), Lower(rest), ' ');
    assert Lower(word + " " + rest) == Lower(word) + [' '] + Lower(rest);
  }

  /** The number read from the warranty text is k exactly when its lower-cased first word is the k-th number-word. */
  lemma WarrantyYearsByWord(warranty: string, k: nat)
    requires 1 <= k <= 5
    ensures WarrantyYears(warranty) == k <==> FirstWord(Lower(warranty)) == NumberWords[k - 1]
  {
  }

  /** The label is plural exactly when the number exceeds one, and distinct numbers get distinct labels. */
  lemma WarrantyLabelFaithful(n: nat, m: nat)
    ensures WarrantyLabel(n)[|WarrantyLabel(n)| - 1] == 's' <==> n > 1
    ensures WarrantyLabel(n) == WarrantyLabel(m) ==> n == m
  {
    var sn, sm := NatToString(n), NatToString(m);
    var tn, tm := UnitSuffix(n), UnitSuffix(m);
    assert WarrantyLabel(n) == sn + tn;
    assert WarrantyLabel(m) == sm + tm;
    if WarrantyLabel(n) == WarrantyLabel(m) {
      assert tn[|tn| - 1] == tm[|tm| - 1];
      assert tn == tm;
      assert sn == (sn + tn)[..|sn|];
      assert sm == (sm + tm)[..|sm|];
      ParseNatToString(n);
      ParseNatToString(m);
    }
  }

  /** Sample: "one year" reads as one year, in the singular. */
  lemma WarrantyOneYear()
    ensures ConvertWarrantyToNumber("one year") == "1 year"
  {
    var word, rest := "one", "year";
    calc {
      ConvertWarrantyToNumber("one year");
    == { assert word + " " + rest == "one year"; }
      ConvertWarrantyToNumber(word + " " + rest);
    == { SampleCaption(word, rest, "one", 1); }
      WarrantyLabel(1);
    == { assert NatToString(1) == "1"; }
      "1 year";
    }
  }


  /** Sample: the word is matched case-insensitively, and two years are plural. */
  lemma WarrantyTwoYears()
    ensures ConvertWarrantyToNumber("Two Years") == "2 years"
  {
    var word, rest := "Two", "Years";
    calc {
      ConvertWarrantyToNumber("Two Years");
    == { assert word + " " + rest == "Two Years"; }
      ConvertWarrantyToNumber(word + " " + rest);
    == { SampleCaption(word, rest, "two", 2); }
      WarrantyLabel(2);
    == { assert NatToString(2) == "2"; }
      "2 years";
    }
  }


  /** Sample: a word outside the table reads as zero years, in the singular. */
  lemma WarrantySixYears()
    ensures ConvertWarrantyToNumber("six years") == "0 year"
  {
    var word, rest := "six", "years";
    calc {
      ConvertWarrantyToNumber("six years");
    == { assert word + " " + rest == "six years"; }
      ConvertWarrantyToNumber(word + " " + rest);
    == { SampleCaption(word, rest, "six", 0); }
      WarrantyLabel(0);
    == { assert NatToString(0) == "0"; }
      "0 year";
    }
  }


  /** The caption of a sample text: the label of the number its lower-cased first word names. */
  lemma SampleCaption(word: string, rest: string, lowered: string, n: nat)
    requires |word| == 3 && ' ' !in word
    requires lowered == [LowerChar(word[0]), LowerChar(word[1]), LowerChar(word[2])]
    requires WarrantyNumber(lowered) == n
    ensures ConvertWarrantyToNumber(word + " " + rest) == WarrantyLabel(n)
  {
    WarrantyIgnoresTrailingText(word, rest);
    assert Lower(word) == lowered;
  }

  // ---------------------------------------------------------------------------
  // Time in use
  // ---------------------------------------------------------------------------

  /** Calendar months from the purchase to now, reading only years and month indexes. */
  function MonthsBetween(now: YearMonth, purchased: YearMonth): int
  {
    (now.year - purchased.year) * 12 + (now.month - purchased.month)
  }

  /** Elapsed time as whole years and remaining months. */
  datatype Duration = Duration(years: int, months: int)

  /** The elapsed months split into whole years and 0..11 remaining months (floor division by 12). */
  function YearsMonthsUsed(now: YearMonth, purchased: YearMonth): (d: Duration)
    ensures 0 <= d.months <= 11
    ensures d.years * 12 + d.months == MonthsBetween(now, purchased)
  {
    var total := MonthsBetween(now, purchased);
    Duration(total / 12, total % 12)
  }

  /** Any split of the elapsed months into years and 0..11 months is the one above. */
  lemma DurationUnique(now: YearMonth, purchased: YearMonth, d: Duration)
    requires 0 <= d.months <= 11
    requires d.years * 12 + d.months == MonthsBetween(now, purchased)
    ensures d == YearsMonthsUsed(now, purchased)
  {
  }

  /** `"<y> year(s) <m> month(s)"`: each unit is plural whenever its value is not 1. */
  function UsedLabel(d: Duration): (text: string)
    ensures var k := |IntToString(d.years)| + 5;
      |text| > k && text[..k] == IntToString(d.years) + " year" && (text[k] == 's' <==> d.years != 1)
    ensures text[|text| - 1] == 's' <==> d.months != 1
  {
    IntToString(d.years) + " year" + (if d.years != 1 then "s" else "")
    + " " + IntToString(d.months) + " month" + (if d.months != 1 then "s" else "")
  }

  /**
   * `calculateYearUsed`: subtract years and month indexes, and when the month
   * difference is negative borrow one year as twelve months.
   */
  method CalculateYearUsed(now: YearMonth, purchased: YearMonth) returns (caption: string)
    ensures caption == UsedLabel(YearsMonthsUsed(now, purchased))
  {
    var years := now.year - purchased.year;
    var months := now.month - purchased.month;
    if months < 0 {
      years := years - 1;
      months := months + 12;
    }
    DurationUnique(now, purchased, Duration(years, months));
    caption := UsedLabel(Duration(years, months));
  }

  /** A negative month difference borrows exactly one year; otherwise the differences are taken as they are. */
  lemma BorrowOneYear(now: YearMonth, purchased: YearMonth)
    ensures var d := YearsMonthsUsed(now, purchased);
      if now.month < purchased.month then
        d.years == now.year - purchased.year - 1 && d.months == now.month - purchased.month + 12
      else
        d.years == now.year - purchased.year && d.months == now.month - purchased.month
  {
    var d := YearsMonthsUsed(now, purchased);
    if now.month < purchased.month {
      DurationUnique(now, purchased, Duration(now.year - purchased.year - 1, now.month - purchased.month + 12));
    } else {
      DurationUnique(now, purchased, Duration(now.year - purchased.year, now.month - purchased.month));
    }
  }

  /** Sample values: two years and three months, and a negative month difference that borrows a year. */
  lemma YearUsedExamples()
    ensures YearsMonthsUsed(YearMonth(2026, 9), YearMonth(2024, 6)) == Duration(2, 3)
    ensures YearsMonthsUsed(YearMonth(2026, 2), YearMonth(2025, 7)) == Duration(0, 7)
  {
    BorrowOneYear(YearMonth(2026, 9), YearMonth(2024, 6));
    BorrowOneYear(YearMonth(2026, 2), YearMonth(2025, 7));
  }

  /** Sample caption: zero is plural in both units. */
  lemma UsedLabelZero()
    ensures UsedLabel(Duration(0, 0)) == "0 years 0 months"
  {
    assert IntToString(0) == "0";
  }

  /** Sample caption: one is singular in both units. */
  lemma UsedLabelOne()
    ensures UsedLabel(Duration(1, 1)) == "1 year 1 month"
  {
    assert IntToString(1) == "1";
  }

  // ---------------------------------------------------------------------------
  // Calendar-year age and the row highlight
  // ---------------------------------------------------------------------------

  /**
   * `calculateYear`: the difference of the calendar years alone. It is one
   * more than the whole years in use exactly when this year's month comes
   * before the purchase month.
   */
  function CalculateYear(now: YearMonth, purchased: YearMonth): (years: int)
    ensures years == YearsMonthsUsed(now, purchased).years + (if now.month < purchased.month then 1 else 0)
  {
    BorrowOneYear(now, purchased);
    now.year - purchased.year
  }

  /** A row is highlighted when its equipment is six or more calendar years old. */
  predicate RowHighlighted(now: YearMonth, purchased: YearMonth): (highlighted: bool)
    ensures highlighted ==> MonthsBetween(now, purchased) >= 61
    ensures MonthsBetween(now, purchased) >= 72 ==> highlighted
  {
    CalculateYear(now, purchased) >= 6
  }

  /**
   * In terms of the time in use shown beside it, the highlight starts at five
   * whole years once the current month index is below the purchase month.
   */
  lemma HighlightInYearsUsed(now: YearMonth, purchased: YearMonth)
    ensures var d := YearsMonthsUsed(now, purchased);
      RowHighlighted(now, purchased) <==> d.years >= 6 || (d.years == 5 && now.month < purchased.month)
  {
  }

  /**
   * The same five years and one month of use can go either way: a device bought
   * in December 2020 is highlighted in January 2026, one bought in January 2020
   * is not highlighted in February 2025.
   */
  lemma HighlightBeforeSixYearsOfUse()
    ensures RowHighlighted(YearMonth(2026, 0), YearMonth(2020, 11))
    ensures YearsMonthsUsed(YearMonth(2026, 0), YearMonth(2020, 11)) == Duration(5, 1)
    ensures !RowHighlighted(YearMonth(2025, 1), YearMonth(2020, 0))
    ensures YearsMonthsUsed(YearMonth(2025, 1), YearMonth(2020, 0)) == Duration(5, 1)
  {
    BorrowOneYear(YearMonth(2026, 0), YearMonth(2020, 11));
    BorrowOneYear(YearMonth(2025, 1), YearMonth(2020, 0));
  }

  /** The row style each view derives from the highlight rule: a red background, or the `bg-blue-400` class. */
  function RowStyle(variant: Variant, now: YearMonth, purchased: YearMonth): (style: string)
    ensures variant == PageView ==> (style == "red" <==> RowHighlighted(now, purchased))
    ensures variant == HomeView ==> (style == "bg-blue-400 border" <==> RowHighlighted(now, purchased))
  {
    var highlighted := CalculateYear(now, purchased) >= 6;
    match variant
    case PageView => if highlighted then "red" else "transparent"
    case HomeView => (if highlighted then "bg-blue-400" else "") + " border"
  }

  // ---------------------------------------------------------------------------
  // File icon
  // ---------------------------------------------------------------------------

  datatype FileIcon = PdfIcon | ExcelIcon | ImageIcon | GenericIcon

  /** `fileName.split(".").pop()`: the text after the last dot, or the whole name without a dot. */
  function Extension(fileName: string): (ext: string)
    ensures '.' !in ext
  {
    SplitPiecesFree(fileName, '.');
    Last(Split(fileName, '.'))
  }

  /** The icon for an already lower-cased extension. */
  function IconFor(ext: string): (icon: FileIcon)
    ensures icon == PdfIcon <==> ext == "pdf"
    ensures icon == ExcelIcon <==> ext == "xlsx" || ext == "xls"
    ensures icon == ImageIcon <==> ext == "jpg" || ext == "jpeg" || ext == "png"
  {
    if ext == "pdf" then PdfIcon
    else if ext == "xlsx" || ext == "xls" then ExcelIcon
    else if ext == "jpg" || ext == "jpeg" || ext == "png" then ImageIcon
    else GenericIcon
  }

  /** `getFileIcon`: classify a file by its lower-cased extension. */
  function GetFileIcon(fileName: string): (icon: FileIcon)
    ensures icon == PdfIcon <==> Lower(Extension(fileName)) == "pdf"
    ensures icon == ExcelIcon <==> Lower(Extension(fileName)) in {"xlsx", "xls"}
    ensures icon == ImageIcon <==> Lower(Extension(fileName)) in {"jpg", "jpeg", "png"}
  {
    IconFor(Lower(Extension(fileName)))
  }

  /** The icon depends only on the text after the last dot. */
  lemma IconAfterLastDot(stem: string, ext: string)
    requires '.' !in ext
    ensures Extension(stem + "." + ext) == ext
    ensures GetFileIcon(stem + "." + ext) == IconFor(Lower(ext))
  {
    SplitAround(stem, ext, '.');
    SplitWithoutSeparator(ext, '.');
  }

  /** A name without a dot is classified by the whole name. */
  lemma IconWithoutDot(fileName: string)
    requires '.' !in fileName
    ensures GetFileIcon(fileName) == IconFor(Lower(fileName))
  {
    SplitWithoutSeparator(fileName, '.');
  }

  /** Sample: an upper-case extension is lower-cased first. */
  lemma PdfIconExample()
    ensures GetFileIcon("Report.PDF") == PdfIcon
  {
    var stem, ext := "Report", "PDF";
    assert Lower(ext) == "pdf" by { assert LowerChar('P') == 'p' && LowerChar('D') == 'd' && LowerChar('F') == 'f'; }
    calc {
      GetFileIcon("Report.PDF");
    == { assert stem + "." + ext == "Report.PDF"; }
      GetFileIcon(stem + "." + ext);
    == { IconAfterLastDot(stem, ext); }
      IconFor(Lower(ext));
    ==
      IconFor("pdf");
    }
  }

  /** Sample: only the text after the last dot counts. */
  lemma LastDotExample()
    ensures GetFileIcon("scan.pdf.zip") == GenericIcon
  {
    var stem, ext := "scan.pdf", "zip";
    assert Lower(ext) == "zip" by { assert LowerChar('z') == 'z' && LowerChar('i') == 'i' && LowerChar('p') == 'p'; }
    calc {
      GetFileIcon("scan.pdf.zip");
    == { assert stem + "." + ext == "scan.pdf.zip"; }
      GetFileIcon(stem + "." + ext);
    == { IconAfterLastDot(stem, ext); }
      IconFor(Lower(ext));
    ==
      IconFor("zip");
    }
  }

  /** Sample: a name without a dot that spells an extension gets that extension's icon. */
  lemma DotlessNameExample()
    ensures GetFileIcon("png") == ImageIcon
  {
    IconWithoutDot("png");
    assert Lower("png") == "png";
  }
}
