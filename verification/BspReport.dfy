/** From parsed HAF records to the canonical BSP report: row mapping, four totals, settlement period. */
module BspReport {
  import opened Wrappers
  import opened Text
  import opened Calendar
  import opened HafRecords
  import opened Canonical

  datatype Kind = Sale | RefundRow | ExchangeRow | Adm | Acm | CommissionRow | TaxAdjustment

  datatype BspTransaction = BspTransaction(
    kind: Kind,
    documentNumber: string,
    issueDate: Date,
    airline: string,
    gross: Money,
    commission: Option<Money>,
    net: Money)

  datatype Report = Report(
    country: string,
    period: Period,
    salesTotal: Money,
    refundTotal: Money,
    commissionTotal: Money,
    netRemittance: Money,
    transactions: seq<BspTransaction>,
    sourceRef: string)

  datatype ReportError = InvalidCurrency | InvalidCountry | InvalidAirline | PeriodOverflow | PeriodNotOrdered

  // ---- settlement period ----

  /** A UTC instant: a day and the microseconds into it. */
  datatype Instant = Instant(day: Date, micros: nat)

  /** Half-open range `[start, end)`. */
  datatype Period = Period(start: Instant, end: Option<Instant>)

  predicate EarlierInstant(a: Instant, b: Instant) {
    Before(a.day, b.day) || (a.day == b.day && a.micros < b.micros)
  }

  /** Inclusive header dates to a half-open period; `Period` refuses an end that is not after its start. */
  function PeriodFromHeader(h: Header): Result<Period, ReportError>
    requires ValidDate(h.periodStart) && ValidDate(h.periodEnd)
  {
    match NextDay(h.periodEnd)
    case None => Err(PeriodOverflow)
    case Some(endDay) =>
      var start, end := Instant(h.periodStart, 0), Instant(endDay, 0);
      if EarlierInstant(start, end) then Ok(Period(start, Some(end))) else Err(PeriodNotOrdered)
  }

  /** The inclusive dates a statement is fetched for. */
  function FetchDates(p: Period): (Date, Date)
    requires ValidDate(p.start.day) && (p.end.Some? ==> ValidDate(p.end.value.day))
  {
    var start := p.start.day;
    match p.end
    case None => (start, start)
    case Some(end) =>
      (start, if Before(start, end.day) then PrevDay(end.day).value else start)
  }

  /** Header dates to `Period` to fetch dates is the identity, exactly for ordered dates that have a next day. */
  lemma PeriodRoundTrip(h: Header)
    requires ValidDate(h.periodStart) && ValidDate(h.periodEnd)
    ensures PeriodFromHeader(h).Ok? <==> !Before(h.periodEnd, h.periodStart) && h.periodEnd != MAX_DATE
    ensures PeriodFromHeader(h).Ok? ==> FetchDates(PeriodFromHeader(h).value) == (h.periodStart, h.periodEnd)
    ensures PeriodFromHeader(h).Ok? ==>
              var p := PeriodFromHeader(h).value;
              && p.start == Instant(h.periodStart, 0) && p.end.Some? && p.end.value.micros == 0
              && ValidDate(p.end.value.day) && Ordinal(p.end.value.day) == Ordinal(h.periodEnd) + 1
  {
    if h.periodEnd != MAX_DATE {
      NextDayAfter(h.periodStart, h.periodEnd);
      PrevOfNext(h.periodEnd);
      NextDayIsOrdinalSuccessor(h.periodEnd);
    }
  }

  // ---- rows ----

  function Rupees(paise: int): real {
    paise as real / 100.0
  }

  predicate ValidCurrency(c: string) {
    AllUpperLetters(Strip(c), 3)
  }

  predicate ValidCountry(c: string) {
    AllUpperLetters(Strip(c), 2)
  }

  predicate ValidIata(c: string) {
    var s := Strip(c);
    2 <= |s| <= 3 && forall i :: 0 <= i < |s| ==> IsDigit(s[i]) || 'A' <= s[i] <= 'Z'
  }

  function KindOf(r: Record): Kind {
    match r
    case Ticketing(_, _, _, _, _, _, _, _) => Sale
    case Refund(_, _, _, _, _, _) => RefundRow
    case Exchange(_, _, _, _, _, _) => ExchangeRow
    case DebitMemo(_, _, _, _, _) => Adm
    case CreditMemo(_, _, _, _, _) => Acm
  }

  /** One canonical row; records without a gross column carry their net there. */
  function RowOf(r: Record, currency: string): BspTransaction {
    var c := Strip(currency);
    BspTransaction(
      KindOf(r),
      Strip(DocumentNumber(r)),
      r.issueDate,
      Strip(Upper(r.airline)),
      Money(Rupees(if r.Ticketing? then r.gross else NetOf(r)), c),
      if r.Ticketing? && r.commission != 0 then Some(Money(Rupees(r.commission), c)) else None,
      Money(Rupees(NetOf(r)), c))
  }

  function RowsOf(rs: seq<Record>, currency: string): (rows: seq<BspTransaction>)
    ensures |rows| == |rs|
    ensures forall i :: 0 <= i < |rs| ==> rows[i] == RowOf(rs[i], currency)
  {
    seq(|rs|, i requires 0 <= i < |rs| => RowOf(rs[i], currency))
  }

  // ---- totals ----

  function SumGross(rs: seq<Record>): int {
    if rs == [] then 0
    else SumGross(rs[..|rs| - 1]) + if rs[|rs| - 1].Ticketing? then rs[|rs| - 1].gross else 0
  }

  function SumCommission(rs: seq<Record>): int {
    if rs == [] then 0
    else SumCommission(rs[..|rs| - 1]) + if rs[|rs| - 1].Ticketing? then rs[|rs| - 1].commission else 0
  }

  function SumRefunds(rs: seq<Record>): int {
    if rs == [] then 0
    else
      var last := rs[|rs| - 1];
      SumRefunds(rs[..|rs| - 1]) + if last.Refund? || last.Exchange? then NetOf(last) else 0
  }

  function SumSaleNets(rs: seq<Record>): int {
    if rs == [] then 0
    else SumSaleNets(rs[..|rs| - 1]) + if rs[|rs| - 1].Ticketing? then rs[|rs| - 1].net else 0
  }

  function SumMemos(rs: seq<Record>): int {
    if rs == [] then 0
    else
      var last := rs[|rs| - 1];
      SumMemos(rs[..|rs| - 1]) + if last.DebitMemo? || last.CreditMemo? then last.amount else 0
  }

  predicate AirlinesValid(f: HafFile) {
    forall i :: 0 <= i < |f.transactions| ==> ValidIata(Upper(f.transactions[i].airline))
  }

  /** What the canonical model accepts of a statement. */
  predicate Reportable(f: HafFile)
    requires ValidDate(f.header.periodStart) && ValidDate(f.header.periodEnd)
  {
    && ValidCurrency(Upper(f.header.currency))
    && ValidCountry(Upper(f.header.country))
    && AirlinesValid(f)
    && !Before(f.header.periodEnd, f.header.periodStart)
    && f.header.periodEnd != MAX_DATE
  }

  function ReportOf(f: HafFile): Report
    requires ValidDate(f.header.periodStart) && ValidDate(f.header.periodEnd) && Reportable(f)
  {
    var currency := Upper(f.header.currency);
    var c := Strip(currency);
    PeriodRoundTrip(f.header);
    Report(
      Strip(Upper(f.header.country)),
      PeriodFromHeader(f.header).value,
      Money(Rupees(SumGross(f.transactions)), c),
      Money(Rupees(SumRefunds(f.transactions)), c),
      Money(Rupees(SumCommission(f.transactions)), c),
      Money(Rupees(SumNet(f.transactions)), c),
      RowsOf(f.transactions, currency),
      f.sourceRef)
  }

  function TryRow(r: Record, currency: string): Result<BspTransaction, ReportError> {
    if !ValidCurrency(currency) then Err(InvalidCurrency)
    else if !ValidIata(Upper(r.airline)) then Err(InvalidAirline)
    else Ok(RowOf(r, currency))
  }

  method MapRows(rs: seq<Record>, currency: string) returns (rows: Result<seq<BspTransaction>, ReportError>)
    ensures rows.Ok? <==> forall i :: 0 <= i < |rs| ==> TryRow(rs[i], currency).Ok?
    ensures rows.Ok? ==> rows.value == RowsOf(rs, currency)
    ensures rows.Err? ==> exists i :: 0 <= i < |rs| && TryRow(rs[i], currency) == Err(rows.error)
                                      && forall j :: 0 <= j < i ==> TryRow(rs[j], currency).Ok?
  {
    rows := MapAll(rs, r => TryRow(r, currency));
  }

  method SumTotals(rs: seq<Record>, rows: seq<BspTransaction>)
    returns (salesTotal: real, refundTotal: real, commissionTotal: real, netTotal: real)
    requires |rows| == |rs|
    requires forall i :: 0 <= i < |rs| ==> rows[i].net.amount == Rupees(NetOf(rs[i]))
    ensures salesTotal == Rupees(SumGross(rs))
    ensures refundTotal == Rupees(SumRefunds(rs))
    ensures commissionTotal == Rupees(SumCommission(rs))
    ensures netTotal == Rupees(SumNet(rs))
  {
    salesTotal, refundTotal, commissionTotal, netTotal := 0.0, 0.0, 0.0, 0.0;
    for i := 0 to |rs|
      invariant salesTotal == Rupees(SumGross(rs[..i]))
      invariant refundTotal == Rupees(SumRefunds(rs[..i]))
      invariant commissionTotal == Rupees(SumCommission(rs[..i]))
      invariant netTotal == Rupees(SumNet(rs[..i]))
    {
      var record, canonical := rs[i], rows[i];
      assert rs[..i + 1][..i] == rs[..i];
      netTotal := netTotal + canonical.net.amount;
      if record.Ticketing? {
        salesTotal := salesTotal + Rupees(record.gross);
        commissionTotal := commissionTotal + Rupees(record.commission);
      } else if record.Refund? || record.Exchange? {
        refundTotal := refundTotal + Rupees(NetOf(record));
      }
    }
    assert rs[..|rs|] == rs;
  }

  /** The one error a statement raises: rows are built first, then the period, then the report's own fields. */
  predicate Explains(e: ReportError, f: HafFile)
    requires ValidDate(f.header.periodStart) && ValidDate(f.header.periodEnd)
  {
    var currencyOk := ValidCurrency(Upper(f.header.currency));
    var rowsOk := f.transactions == [] || (currencyOk && AirlinesValid(f));
    var ordered := !Before(f.header.periodEnd, f.header.periodStart);
    match e
    case InvalidAirline => currencyOk && !AirlinesValid(f)
    case PeriodOverflow => rowsOk && f.header.periodEnd == MAX_DATE
    case PeriodNotOrdered => rowsOk && f.header.periodEnd != MAX_DATE && !ordered
    case InvalidCurrency => !currencyOk && (f.transactions != [] || (f.header.periodEnd != MAX_DATE && ordered))
    case InvalidCountry =>
      rowsOk && currencyOk && f.header.periodEnd != MAX_DATE && ordered && !ValidCountry(Upper(f.header.country))
  }

  method HafFileToBspReport(f: HafFile) returns (r: Result<Report, ReportError>)
    requires ValidDate(f.header.periodStart) && ValidDate(f.header.periodEnd)
    ensures r.Ok? <==> Reportable(f)
    ensures r.Ok? ==> r.value == ReportOf(f)
    ensures r.Err? ==> Explains(r.error, f)
  {
    PeriodRoundTrip(f.header);
    var currency := Upper(f.header.currency);
    var country := Upper(f.header.country);
    var mapped := MapRows(f.transactions, currency);
    if mapped.Err? {
      return Err(mapped.error);
    }
    var salesTotal, refundTotal, commissionTotal, netTotal := SumTotals(f.transactions, mapped.value);
    var period := PeriodFromHeader(f.header);
    if period.Err? {
      return Err(period.error);
    }
    if !ValidCurrency(currency) {
      return Err(InvalidCurrency);
    }
    if !ValidCountry(country) {
      return Err(InvalidCountry);
    }
    var c := Strip(currency);
    return Ok(Report(Strip(country), period.value, Money(salesTotal, c), Money(refundTotal, c),
                     Money(commissionTotal, c), Money(netTotal, c), mapped.value, f.sourceRef));
  }

  /** The remittance splits into sale nets, the refund total and the memo amounts; nothing is counted twice. */
  lemma {:induction false} RemittanceSplits(rs: seq<Record>)
    ensures SumNet(rs) == SumSaleNets(rs) + SumRefunds(rs) + SumMemos(rs)
  {
    if rs != [] {
      RemittanceSplits(rs[..|rs| - 1]);
    }
  }

  function SumRowNet(rows: seq<BspTransaction>): real {
    if rows == [] then 0.0 else SumRowNet(rows[..|rows| - 1]) + rows[|rows| - 1].net.amount
  }

  lemma {:induction false} RowNetsSum(rs: seq<Record>, rows: seq<BspTransaction>)
    requires |rows| == |rs| && forall i :: 0 <= i < |rs| ==> rows[i].net.amount == Rupees(NetOf(rs[i]))
    ensures SumRowNet(rows) == Rupees(SumNet(rs))
  {
    if rs != [] {
      RowNetsSum(rs[..|rs| - 1], rows[..|rs| - 1]);
    }
  }

  /** The report's rows add up to its net remittance, to the paisa. */
  lemma RowsSumToRemittance(f: HafFile)
    requires ValidDate(f.header.periodStart) && ValidDate(f.header.periodEnd) && Reportable(f)
    ensures SumRowNet(ReportOf(f).transactions) == ReportOf(f).netRemittance.amount
  {
    RowNetsSum(f.transactions, RowsOf(f.transactions, Upper(f.header.currency)));
  }

  // ---- totals against rows ----

  function SumGrossOfSales(rows: seq<BspTransaction>): real {
    if rows == [] then 0.0
    else
      var last := rows[|rows| - 1];
      SumGrossOfSales(rows[..|rows| - 1]) + if last.kind == Sale then last.gross.amount else 0.0
  }

  function SumRowCommission(rows: seq<BspTransaction>): real {
    if rows == [] then 0.0
    else
      var last := rows[|rows| - 1];
      SumRowCommission(rows[..|rows| - 1]) + if last.commission.Some? then last.commission.value.amount else 0.0
  }

  function SumNetOfReturns(rows: seq<BspTransaction>): real {
    if rows == [] then 0.0
    else
      var last := rows[|rows| - 1];
      SumNetOfReturns(rows[..|rows| - 1])
      + if last.kind == RefundRow || last.kind == ExchangeRow then last.net.amount else 0.0
  }

  /** The money on a row is the record's, under the record's kind. */
  predicate Mirrors(row: BspTransaction, r: Record) {
    && row.kind == KindOf(r)
    && row.net.amount == Rupees(NetOf(r))
    && (r.Ticketing? ==> row.gross.amount == Rupees(r.gross))
    && (if row.commission.Some? then row.commission.value.amount else 0.0)
         == (if r.Ticketing? then Rupees(r.commission) else 0.0)
  }

  lemma RowMirrors(r: Record, currency: string)
    ensures Mirrors(RowOf(r, currency), r)
  {
  }

  lemma {:induction false} RowSums(rs: seq<Record>, rows: seq<BspTransaction>)
    requires |rows| == |rs| && forall i :: 0 <= i < |rs| ==> Mirrors(rows[i], rs[i])
    ensures SumGrossOfSales(rows) == Rupees(SumGross(rs))
    ensures SumRowCommission(rows) == Rupees(SumCommission(rs))
    ensures SumNetOfReturns(rows) == Rupees(SumRefunds(rs))
  {
    if rs != [] {
      RowSums(rs[..|rs| - 1], rows[..|rs| - 1]);
    }
  }

  /** The totals, accumulated from the parsed records, are also the totals of the rows that are reported. */
  lemma TotalsAreOfRows(f: HafFile)
    requires ValidDate(f.header.periodStart) && ValidDate(f.header.periodEnd) && Reportable(f)
    ensures var r := ReportOf(f);
            && r.salesTotal.amount == SumGrossOfSales(r.transactions)
            && r.commissionTotal.amount == SumRowCommission(r.transactions)
            && r.refundTotal.amount == SumNetOfReturns(r.transactions)
            && r.netRemittance.amount == SumRowNet(r.transactions)
  {
    var rows := RowsOf(f.transactions, Upper(f.header.currency));
    forall i | 0 <= i < |rows|
      ensures Mirrors(rows[i], f.transactions[i])
    {
      RowMirrors(f.transactions[i], Upper(f.header.currency));
    }
    RowSums(f.transactions, rows);
    RowsSumToRemittance(f);
  }
}
