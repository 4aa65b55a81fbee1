/** `exportReport`: validates the range, totals the caller's transactions in it,
    and names the file to download.  The file itself is not generated; the clock
    reading `Date.now()` is the parameter `timestamp`. */
module ExportHandler {
  import opened Outcomes
  import opened Text
  import opened Dates
  import opened Schema
  import opened Store
  import opened Query
  import CategoryRollup
  import FinancialReportHandler

  const ExportBase: string := "http://localhost:2022/exports/"
  const FilePrefix: string := "financial_report_"

  function FormatName(f: ExportFormat): (s: string)
    ensures '.' !in s
  {
    match f
    case Pdf => "pdf"
    case Excel => "excel"
  }

  /** `financial_report_{user}_{start}_{end}_{timestamp}.{format}` */
  function FileName(owner: UserId, start: string, end: string, timestamp: nat, format: ExportFormat): string {
    FilePrefix + (NatToString(owner) + ("_" + (start + ("_" + (end + ("_" + (NatToString(timestamp) + ("." + FormatName(format)))))))))
  }

  function DownloadUrl(owner: UserId, start: string, end: string, timestamp: nat, format: ExportFormat): (url: string)
    ensures ExportBase + FilePrefix <= url
    ensures |url| > |FormatName(format)| && url[|url| - |FormatName(format)| - 1..] == "." + FormatName(format)
  {
    ExportBase + FileName(owner, start, end, timestamp, format)
  }

  datatype ExportSummary = ExportSummary(totalIncome: Cents, totalExpense: Cents, balance: Cents, transactionCount: nat)

  /** What the handler computes: the report data it would hand to a file generator,
      and the URL it returns. */
  datatype Export = Export(periodType: PeriodType, summary: ExportSummary, downloadUrl: string)

  function ExportReport(l: Ledger, owner: UserId, f: DateRangeFilter, format: ExportFormat, timestamp: nat): (r: Result<Export>)
    ensures r.Success? <==>
      ParseDate(f.startDate).Some? && ParseDate(f.endDate).Some?
      && NotAfter(ParseDate(f.startDate).value, ParseDate(f.endDate).value)
      && StorableDay(ParseDate(f.startDate).value) && StorableDay(ParseDate(f.endDate).value)
    ensures ParseDate(f.startDate).None? || ParseDate(f.endDate).None? ==> r == Failure(InvalidTimeValue)
    ensures (ParseDate(f.startDate).Some? && ParseDate(f.endDate).Some?
             && Precedes(ParseDate(f.endDate).value, ParseDate(f.startDate).value)) ==> r == Failure(StartAfterEnd)
    ensures (ParseDate(f.startDate).Some? && ParseDate(f.endDate).Some?
             && NotAfter(ParseDate(f.startDate).value, ParseDate(f.endDate).value)
             && !(StorableDay(ParseDate(f.startDate).value) && StorableDay(ParseDate(f.endDate).value))) ==>
            r == Failure(DateOutOfRange)
    ensures r.Success? ==> r.value.periodType == FinancialReportHandler.PeriodOrDefault(f.periodType)
    ensures r.Success? ==> r.value.summary.balance == r.value.summary.totalIncome - r.value.summary.totalExpense
    ensures r.Success? ==> r.value.summary.transactionCount
                           == |Rows(l, owner, Closed(ParseDate(f.startDate).value, ParseDate(f.endDate).value))|
    ensures r.Success? ==> r.value.downloadUrl == DownloadUrl(owner, f.startDate, f.endDate, timestamp, format)
    ensures r.Success? && AmountsPositive(l.transactions) ==>
            r.value.summary.totalIncome >= 0 && r.value.summary.totalExpense >= 0
  {
    match (ParseDate(f.startDate), ParseDate(f.endDate))
    case (Some(start), Some(end)) =>
      if Precedes(end, start) then Failure(StartAfterEnd)
      else if !(StorableDay(start) && StorableDay(end)) then Failure(DateOutOfRange)
      else
        var rows := Rows(l, owner, Closed(start, end));
        var income := KindTotal(rows, Income);
        var expense := KindTotal(rows, Expense);
        TotalsNonNegative(l, owner, Closed(start, end));
        Success(Export(FinancialReportHandler.PeriodOrDefault(f.periodType),
                       ExportSummary(income, expense, income - expense, |rows|),
                       DownloadUrl(owner, f.startDate, f.endDate, timestamp, format)))
    case _ => Failure(InvalidTimeValue)
  }

  /** The export's totals are the financial report's summary for the same filter. */
  lemma ExportMatchesReport(l: Ledger, owner: UserId, f: DateRangeFilter, format: ExportFormat, timestamp: nat)
    requires ExportReport(l, owner, f, format, timestamp).Success?
    ensures var e := ExportReport(l, owner, f, format, timestamp).value.summary;
            var r := FinancialReportHandler.GetFinancialReport(l, owner, f);
            r.Success? && r.value.summary == Totals(e.totalIncome, e.totalExpense, e.balance)
  {
    var start := ParseDate(f.startDate).value;
    var end := ParseDate(f.endDate).value;
    CategoryRollup.RollupKindSum(Rows(l, owner, Closed(start, end)), Income);
    CategoryRollup.RollupKindSum(Rows(l, owner, Closed(start, end)), Expense);
  }

  /** With no transactions at all a well-ordered range still yields a URL, and
      zero totals; equal start and end days are accepted. */
  lemma EmptyLedgerStillExports(l: Ledger, owner: UserId, f: DateRangeFilter, format: ExportFormat, timestamp: nat)
    requires l.transactions == []
    requires ParseDate(f.startDate).Some? && ParseDate(f.endDate).Some?
    requires NotAfter(ParseDate(f.startDate).value, ParseDate(f.endDate).value)
    requires StorableDay(ParseDate(f.startDate).value) && StorableDay(ParseDate(f.endDate).value)
    ensures ExportReport(l, owner, f, format, timestamp)
            == Success(Export(FinancialReportHandler.PeriodOrDefault(f.periodType), ExportSummary(0, 0, 0, 0),
                              DownloadUrl(owner, f.startDate, f.endDate, timestamp, format)))
  {
  }

  lemma SplitAtLength(a1: string, b1: string, a2: string, b2: string)
    requires |a1| == |a2| && a1 + b1 == a2 + b2
    ensures a1 == a2 && b1 == b2
  {
    assert a1 == (a1 + b1)[..|a1|];
    assert b1 == (a1 + b1)[|a1|..];
  }

  /** Where the shorter head ends, the first string shows the separator and the
      second a character of its own head. */
  lemma CharAtHeadEnd(a1: string, b1: string, a2: string, b2: string, c: char)
    ensures |a1| < |a2| ==> (a1 + ([c] + b1))[|a1|] == c && (a2 + ([c] + b2))[|a1|] == a2[|a1|]
  {
  }

  /** Splitting at the first occurrence of a separator that neither head contains. */
  lemma SplitAtSeparator(a1: string, b1: string, a2: string, b2: string, c: char)
    requires c !in a1 && c !in a2
    requires a1 + ([c] + b1) == a2 + ([c] + b2)
    ensures a1 == a2 && b1 == b2
  {
    if |a1| < |a2| {
      CharAtHeadEnd(a1, b1, a2, b2, c);
      assert false;
    } else if |a2| < |a1| {
      CharAtHeadEnd(a2, b2, a1, b1, c);
      assert false;
    }
    SplitAtLength(a1, [c] + b1, a2, [c] + b2);
    SplitAtLength([c], b1, [c], b2);
  }

  lemma DigitsHaveNoSeparator(s: string)
    requires AllDigits(s)
    ensures '_' !in s && '.' !in s
  {
  }

  /** Download URLs name their exports unambiguously: two exports over well-formed
      days get the same URL only when user, start, end, timestamp and format agree. */
  lemma DownloadUrlInjective(u1: UserId, s1: string, e1: string, t1: nat, f1: ExportFormat,
                             u2: UserId, s2: string, e2: string, t2: nat, f2: ExportFormat)
    requires ParseDate(s1).Some? && ParseDate(e1).Some? && ParseDate(s2).Some? && ParseDate(e2).Some?
    requires DownloadUrl(u1, s1, e1, t1, f1) == DownloadUrl(u2, s2, e2, t2, f2)
    ensures u1 == u2 && s1 == s2 && e1 == e2 && t1 == t2 && f1 == f2
  {
    SplitAtLength(ExportBase, FileName(u1, s1, e1, t1, f1), ExportBase, FileName(u2, s2, e2, t2, f2));
    var w1 := NatToString(t1) + ("." + FormatName(f1));
    var w2 := NatToString(t2) + ("." + FormatName(f2));
    var z1 := e1 + ("_" + w1);
    var z2 := e2 + ("_" + w2);
    var y1 := s1 + ("_" + z1);
    var y2 := s2 + ("_" + z2);
    SplitAtLength(FilePrefix, NatToString(u1) + ("_" + y1), FilePrefix, NatToString(u2) + ("_" + y2));
    DigitsHaveNoSeparator(NatToString(u1));
    DigitsHaveNoSeparator(NatToString(u2));
    SplitAtSeparator(NatToString(u1), y1, NatToString(u2), y2, '_');
    NatToStringInjective(u1, u2);
    SplitAtLength(s1, "_" + z1, s2, "_" + z2);
    SplitAtLength("_", z1, "_", z2);
    SplitAtLength(e1, "_" + w1, e2, "_" + w2);
    SplitAtLength("_", w1, "_", w2);
    DigitsHaveNoSeparator(NatToString(t1));
    DigitsHaveNoSeparator(NatToString(t2));
    SplitAtSeparator(NatToString(t1), FormatName(f1), NatToString(t2), FormatName(f2), '.');
    NatToStringInjective(t1, t2);
  }
}
