/**
 End to end: from the digits in a HAF statement's lines, through parser and report, to the reconciliation items.
 */
module Settlement {
  import opened Wrappers
  import opened Text
  import opened Calendar
  import opened HafRecords
  import opened HafParser
  import opened HafAcceptance
  import opened Canonical
  import opened BspReport
  import opened Reconciliation
  import opened ReconciliationTheorems

  // ---- money as it stands in the lines ----

  /** The signed number in a 12-digit column and the sign column after it. */
  function ColumnsValue(line: Line, at: nat): int
    requires at + 13 <= LINE_LENGTH
  {
    var magnitude := Strip(line[at..at + 12]);
    var value: int := if AllDigits(magnitude) then DigitsValue(magnitude) else 0;
    if Strip(line[at + 12..at + 13]) == "-" then -value else value
  }

  /** What a line bills, read straight off its columns; zero for lines that bill nothing. */
  function LineNet(line: string): int {
    if |line| != LINE_LENGTH then 0
    else if line[..5] == "BKS24" then ColumnsValue(line, 68)
    else if line[..5] == "BKS39" || line[..5] == "BKS45" then ColumnsValue(line, 43)
    else if line[..5] == "BKS46" || line[..5] == "BKS47" then ColumnsValue(line, 29)
    else 0
  }

  function StatementNet(lines: seq<string>): int {
    if lines == [] then 0 else StatementNet(lines[..|lines| - 1]) + LineNet(lines[|lines| - 1])
  }

  predicate IsBilling(line: string) {
    |line| == LINE_LENGTH && IsTransactionCode(line[..5])
  }

  /** The lines that bill something, in statement order. */
  function BillingLines(lines: seq<string>): seq<string> {
    if lines == [] then []
    else
      var last := lines[|lines| - 1];
      BillingLines(lines[..|lines| - 1]) + if IsBilling(last) then [last] else []
  }

  function KindOfCode(code: string): Kind {
    if code == "BKS24" then Sale else if code == "BKS39" then RefundRow else if code == "BKS45" then ExchangeRow
    else if code == "BKS46" then Adm else Acm
  }

  /** The airline column; the date stands right after it. */
  function AirlineAt(code: string): nat {
    if code == "BKS39" || code == "BKS45" then 33 else 19
  }

  function LineAirline(line: Line): string {
    var at := AirlineAt(line[..5]);
    Strip(line[at..at + 2])
  }

  /** The calendar date in eight digits YYYYMMDD. */
  function LineDate(line: Line): Date {
    var at := AirlineAt(line[..5]) + 2;
    var s := Strip(line[at..at + 8]);
    if |s| == 8 && AllDigits(s) then Date(DigitsValue(s[0..4]), DigitsValue(s[4..6]), DigitsValue(s[6..8]))
    else Date(0, 0, 0)
  }

  /** Only sales have a gross column of their own. */
  function LineGross(line: Line): int {
    if line[..5] == "BKS24" then ColumnsValue(line, 29) else LineNet(line)
  }

  function LineCommission(line: Line): int {
    if line[..5] == "BKS24" then ColumnsValue(line, 42) else 0
  }

  /** A record holds what its line shows: kind by code, the rest by column. */
  predicate Shows(line: string, r: Record) {
    && IsBilling(line)
    && KindOf(r) == KindOfCode(line[..5])
    && DocumentNumber(r) == Strip(line[5..19])
    && NetOf(r) == LineNet(line)
    && r.airline == LineAirline(line) && AirlineShaped(r.airline)
    && r.issueDate == LineDate(line)
    && (r.Ticketing? ==> r.gross == LineGross(line) && r.commission == LineCommission(line))
  }

  lemma RecordNetIsColumns(line: Line, known: Airlines)
    requires IsTransactionCode(line[..5]) && ParseTransaction(line, known).Ok?
    ensures NetOf(ParseTransaction(line, known).value) == LineNet(line)
  {
  }

  lemma RecordKindAndNumber(line: Line, known: Airlines)
    requires IsTransactionCode(line[..5]) && ParseTransaction(line, known).Ok?
    ensures KindOf(ParseTransaction(line, known).value) == KindOfCode(line[..5])
    ensures DocumentNumber(ParseTransaction(line, known).value) == Strip(line[5..19])
  {
    var code, r := line[..5], ParseTransaction(line, known).value;
    if code == "BKS24" {
      assert ParseTicketing(line, known) == Ok(r);
    } else if code == "BKS39" {
      assert ParseRefund(line, known) == Ok(r);
    } else if code == "BKS45" {
      assert ParseExchange(line, known) == Ok(r);
    } else {
      assert ParseMemo(line, known, code == "BKS46") == Ok(r);
    }
  }

  lemma RecordAirlineAndDate(line: Line, known: Airlines)
    requires IsTransactionCode(line[..5]) && ParseTransaction(line, known).Ok?
    ensures ParseTransaction(line, known).value.airline == LineAirline(line)
    ensures AirlineShaped(LineAirline(line)) && LineAirline(line) in known
    ensures ParseTransaction(line, known).value.issueDate == LineDate(line)
  {
    var code, r := line[..5], ParseTransaction(line, known).value;
    if code == "BKS24" {
      assert ParseTicketing(line, known) == Ok(r);
    } else if code == "BKS39" {
      assert ParseRefund(line, known) == Ok(r);
    } else if code == "BKS45" {
      assert ParseExchange(line, known) == Ok(r);
    } else {
      assert ParseMemo(line, known, code == "BKS46") == Ok(r);
    }
  }

  lemma RecordGrossAndCommission(line: Line, known: Airlines)
    requires line[..5] == "BKS24" && ParseTicketing(line, known).Ok?
    ensures var r := ParseTicketing(line, known).value;
            r.Ticketing? && r.gross == LineGross(line) && r.commission == LineCommission(line)
  {
  }

  /** A reading that takes its record, if any, from what the line shows. */
  predicate Honest(line: string, reading: Reading) {
    && (reading.TransactionRead? <==> IsBilling(line))
    && (reading.TransactionRead? ==> Shows(line, reading.record))
  }

  lemma ReadingIsHonest(line: string, known: Airlines)
    requires !ReadLine(line, known).Malformed?
    ensures Honest(line, ReadLine(line, known))
  {
    if IsBilling(line) {
      RecordNetIsColumns(line, known);
      RecordKindAndNumber(line, known);
      RecordAirlineAndDate(line, known);
      if line[..5] == "BKS24" {
        RecordGrossAndCommission(line, known);
      }
    }
  }

  /** An accepted statement bills only listed airlines, each written as two letters or digits. */
  lemma ListedAirlines(lines: seq<string>, known: Airlines, i: nat)
    requires Accepts(lines, known) && i < |lines| && IsBilling(lines[i])
    ensures LineAirline(lines[i]) in known && |LineAirline(lines[i])| == 2
  {
    var readings := Readings(lines, known);
    CleanGather(readings);
    assert !readings[i].Malformed?;
    RecordAirlineAndDate(lines[i], known);
  }

  lemma SumNetAppend(rs: seq<Record>, r: Record)
    ensures SumNet(rs + [r]) == SumNet(rs) + NetOf(r)
  {
    assert (rs + [r])[..|rs|] == rs;
  }

  lemma {:induction false} GatheredRecords(lines: seq<string>, readings: seq<Reading>)
    requires |lines| == |readings| && forall i :: 0 <= i < |lines| ==> Honest(lines[i], readings[i])
    ensures var rs, billing := Gather(readings).records, BillingLines(lines);
            && |rs| == |billing|
            && (forall i :: 0 <= i < |rs| ==> Shows(billing[i], rs[i]))
  {
    if lines != [] {
      var n := |lines| - 1;
      GatheredRecords(lines[..n], readings[..n]);
      GatherStep(readings, readings[..n]);
    }
  }

  lemma {:induction false} GatheredNet(lines: seq<string>, readings: seq<Reading>)
    requires |lines| == |readings| && forall i :: 0 <= i < |lines| ==> Honest(lines[i], readings[i])
    ensures SumNet(Gather(readings).records) == StatementNet(lines)
  {
    if lines != [] {
      var n := |lines| - 1;
      GatheredNet(lines[..n], readings[..n]);
      GatherStep(readings, readings[..n]);
      if readings[n].TransactionRead? {
        SumNetAppend(Gather(readings[..n]).records, readings[n].record);
      } else {
        assert Gather(readings).records == Gather(readings[..n]).records;
      }
    }
  }

  /** The records of an accepted statement are its billing lines, one by one, and bill what those bill. */
  lemma RecordsBillTheLines(lines: seq<string>, known: Airlines, ref: string)
    requires Accepts(lines, known)
    ensures var rs, billing := FileOf(lines, known, ref).transactions, BillingLines(lines);
            && |rs| == |billing|
            && (forall i :: 0 <= i < |rs| ==> Shows(billing[i], rs[i]))
            && SumNet(rs) == StatementNet(lines)
  {
    var readings := Readings(lines, known);
    CleanGather(readings);
    forall i | 0 <= i < |lines|
      ensures Honest(lines[i], readings[i])
    {
      ReadingIsHonest(lines[i], known);
    }
    GatheredRecords(lines, readings);
    GatheredNet(lines, readings);
  }

  // ---- what the parser guarantees the report ----

  predicate SoundReading(reading: Reading) {
    && (reading.HeaderRead? ==> ValidDate(reading.header.periodStart) && ValidDate(reading.header.periodEnd))
    && (reading.TransactionRead? ==> AirlineShaped(reading.record.airline))
  }

  lemma ReadingsAreSound(line: string, known: Airlines)
    ensures SoundReading(ReadLine(line, known))
  {
  }

  lemma {:induction false} GatheredIsSound(readings: seq<Reading>)
    requires forall i :: 0 <= i < |readings| ==> SoundReading(readings[i])
    ensures forall h :: h in Gather(readings).headers ==> ValidDate(h.periodStart) && ValidDate(h.periodEnd)
    ensures forall r :: r in Gather(readings).records ==> AirlineShaped(r.airline)
  {
    if readings != [] {
      GatheredIsSound(readings[..|readings| - 1]);
    }
  }

  lemma ShapedAirlinesAreValid(code: string)
    requires AirlineShaped(code)
    ensures ValidIata(Upper(code)) && Strip(Upper(code)) == code
  {
    assert Upper(code) == code;
    assert Trimmed(code);
    StripTrimmed(code);
  }

  /** A parsed statement becomes a report unless its header alone prevents it. */
  lemma ParsedFilesReport(lines: seq<string>, known: Airlines, ref: string)
    requires Accepts(lines, known)
    ensures var h := FileOf(lines, known, ref).header;
            && ValidDate(h.periodStart) && ValidDate(h.periodEnd)
            && (Reportable(FileOf(lines, known, ref)) <==>
                  && ValidCurrency(Upper(h.currency)) && ValidCountry(Upper(h.country))
                  && !Before(h.periodEnd, h.periodStart) && h.periodEnd != MAX_DATE)
  {
    var f := FileOf(lines, known, ref);
    var readings := Readings(lines, known);
    forall i | 0 <= i < |lines|
      ensures SoundReading(readings[i])
    {
      ReadingsAreSound(lines[i], known);
    }
    GatheredIsSound(readings);
    forall i | 0 <= i < |f.transactions|
      ensures ValidIata(Upper(f.transactions[i].airline))
    {
      assert f.transactions[i] in Gather(readings).records;
      ShapedAirlinesAreValid(f.transactions[i].airline);
    }
  }

  // ---- the whole pipeline ----

  /** The statement parses and its header lets it become a report. */
  predicate Settles(text: string, known: Airlines, ref: string) {
    Accepts(Lines(text), known) &&
    var f := FileOf(Lines(text), known, ref);
    ValidDate(f.header.periodStart) && ValidDate(f.header.periodEnd) && Reportable(f)
  }

  /** The item of a billing line: its document number, its date, and its signed amount in rupees. */
  predicate Bills(item: Item, line: string) {
    && IsBilling(line)
    && item.externalRef == Some(Strip(line[5..19]))
    && item.externalDate == Some(LineDate(line))
    && item.externalAmount.Some? && item.externalAmount.value.amount == Rupees(LineNet(line))
  }

  /** A row carries what its line shows, in the report's currency. */
  predicate RowShows(row: BspTransaction, line: string, currency: string) {
    && IsBilling(line)
    && row.kind == KindOfCode(line[..5])
    && row.documentNumber == Strip(line[5..19])
    && row.airline == LineAirline(line)
    && row.issueDate == LineDate(line)
    && row.net == Money(Rupees(LineNet(line)), currency)
    && row.gross == Money(Rupees(LineGross(line)), currency)
    && row.commission ==
         if LineCommission(line) == 0 then None else Some(Money(Rupees(LineCommission(line)), currency))
  }

  lemma RowOfShown(line: string, r: Record, currency: string)
    requires Shows(line, r)
    ensures RowShows(RowOf(r, currency), line, Strip(currency))
  {
    StripTwice(line[5..19]);
    ShapedAirlinesAreValid(r.airline);
  }

  /** The rows of a report are its billing lines, one by one. */
  lemma RowsShowTheLines(text: string, known: Airlines, ref: string)
    requires Settles(text, known, ref)
    ensures var report, billing := ReportOf(FileOf(Lines(text), known, ref)), BillingLines(Lines(text));
            && |report.transactions| == |billing|
            && (forall i :: 0 <= i < |billing| ==>
                  RowShows(report.transactions[i], billing[i], report.netRemittance.currency))
  {
    var f, billing := FileOf(Lines(text), known, ref), BillingLines(Lines(text));
    RecordsBillTheLines(Lines(text), known, ref);
    forall i | 0 <= i < |billing|
      ensures RowShows(ReportOf(f).transactions[i], billing[i], ReportOf(f).netRemittance.currency)
    {
      RowOfShown(billing[i], f.transactions[i], Upper(f.header.currency));
    }
  }

  lemma {:induction false} HeaderWasRead(readings: seq<Reading>) returns (i: nat)
    requires |Gather(readings).headers| == 1
    ensures i < |readings| && readings[i].HeaderRead? && readings[i].header == Gather(readings).headers[0]
  {
    var n := |readings| - 1;
    if readings[n].HeaderRead? {
      i := n;
    } else {
      i := HeaderWasRead(readings[..n]);
    }
  }

  lemma HeaderFromColumns(line: Line, h: Header)
    requires ParseHeader(line) == Ok(h)
    ensures h.country == Strip(line[5..7]) && h.currency == Strip(line[7..10])
  {
  }

  lemma UpperTrimmed(s: string)
    ensures Strip(Upper(Strip(s))) == Upper(Strip(s))
  {
    LStripStarts(s);
    RStripKeepsStart(LStrip(s));
    assert Trimmed(Upper(Strip(s)));
    StripTrimmed(Upper(Strip(s)));
  }

  /** Country and currency of the report are those of the header line, in capitals; all totals share the currency. */
  lemma ReportShowsHeader(text: string, known: Airlines, ref: string) returns (i: nat)
    requires Settles(text, known, ref)
    ensures i < |Lines(text)| && HasCode(Lines(text)[i], "BFH01")
    ensures var report, line := ReportOf(FileOf(Lines(text), known, ref)), Lines(text)[i];
            var currency := Upper(Strip(line[7..10]));
            && report.country == Upper(Strip(line[5..7])) && report.sourceRef == ref
            && report.netRemittance.currency == currency && report.salesTotal.currency == currency
            && report.refundTotal.currency == currency && report.commissionTotal.currency == currency
  {
    var readings := Readings(Lines(text), known);
    i := HeaderWasRead(readings);
    var line := Lines(text)[i];
    ReadingIsConsistent(line, known);
    HeaderFromColumns(line, readings[i].header);
    UpperTrimmed(line[5..7]);
    UpperTrimmed(line[7..10]);
  }

  /** A ticket with the airline and number of the line. */
  predicate IsFor(t: Ticket, line: Line) {
    NormalisedKey(t.number, t.issuingAirline) == NormalisedKey(Strip(line[5..19]), LineAirline(line))
  }

  /** Ticket `m` is the first one for the line. */
  predicate IsTicketOf(line: Line, tickets: seq<Ticket>, m: int) {
    0 <= m < |tickets| && IsFor(tickets[m], line) && forall j :: 0 <= j < m ==> !IsFor(tickets[j], line)
  }

  /**
   The outcome of a billing line, from its columns and the tickets: only sales with a ticket of their airline and
   number are compared, with the first such ticket, in the report's currency, to within one rupee.
   */
  ghost predicate Decides(item: Item, line: string, tickets: seq<Ticket>, currency: string)
    requires IsBilling(line)
  {
    && (item.outcome == UnmatchedExternal <==>
          line[..5] != "BKS24" || forall j :: 0 <= j < |tickets| ==> !IsFor(tickets[j], line))
    && (forall m :: line[..5] == "BKS24" && IsTicketOf(line, tickets, m) ==>
          var same := tickets[m].total.currency == currency;
          var close := -1.0 <= Rupees(LineNet(line)) - tickets[m].total.amount <= 1.0;
          && (item.outcome == Matched <==> same && close)
          && (item.outcome == Discrepancy <==> same && !close)
          && (item.outcome == Tentative <==> !same)
          && item.internalRefs == [tickets[m].id])
  }

  /** Items of rows that show billing lines bill and decide those lines. */
  lemma ItemsBill(txs: seq<BspTransaction>, tickets: seq<Ticket>, i: nat, line: string, currency: string)
    requires i < |txs| && RowShows(txs[i], line, currency)
    ensures i < |Expected(txs, tickets)|
    ensures Bills(Expected(txs, tickets)[i], line) && Decides(Expected(txs, tickets)[i], line, tickets, currency)
  {
    OneItemPerRow(txs, tickets);
    OutcomeIff(txs, tickets, i);
    assert forall m :: IsTicketOf(line, tickets, m) ==> IsFirstFor(txs[i], tickets, m);
    assert line[..5] == "BKS24" <==> txs[i].kind == Sale;
  }

  /**
   Conservation from text to items. For every accepted, reportable statement and every ticket list, the external
   amounts of all items sum to the net remittance, which is the signed sum of the amounts in the billing lines;
   the items begin with one for each billing line, in statement order, with that line's number, date and amount and
   the outcome its columns and the tickets call for, and nothing after them carries external money.
   */
  lemma SettlementConserves(text: string, known: Airlines, ref: string, tickets: seq<Ticket>)
    requires Settles(text, known, ref)
    ensures var report := ReportOf(FileOf(Lines(text), known, ref));
            var items, billing := Expected(report.transactions, tickets), BillingLines(Lines(text));
            && SumExternal(items) == report.netRemittance.amount == Rupees(StatementNet(Lines(text)))
            && |billing| <= |items|
            && (forall i :: 0 <= i < |billing| ==>
                  Bills(items[i], billing[i]) && Decides(items[i], billing[i], tickets, report.netRemittance.currency))
            && (forall i :: |billing| <= i < |items| ==> IsInternal(items[i]))
  {
    var f := FileOf(Lines(text), known, ref);
    var txs, billing := ReportOf(f).transactions, BillingLines(Lines(text));
    var currency := ReportOf(f).netRemittance.currency;
    RecordsBillTheLines(Lines(text), known, ref);
    RowsSumToRemittance(f);
    ExternalConservation(txs, tickets);
    OneItemPerRow(txs, tickets);
    RowsShowTheLines(text, known, ref);
    forall i | 0 <= i < |billing|
      ensures Bills(Expected(txs, tickets)[i], billing[i])
      ensures Decides(Expected(txs, tickets)[i], billing[i], tickets, currency)
    {
      ItemsBill(txs, tickets, i, billing[i], currency);
    }
  }

  /** The same pipeline as calls: parse, report, reconcile. */
  method SettleStatement(text: string, known: Airlines, ref: string, tickets: seq<Ticket>)
    returns (r: Option<(Report, seq<Item>, Figures)>)
    ensures r.Some? <==> Settles(text, known, ref)
    ensures r.Some? ==>
              var (report, items, figures) := r.value;
              && report == ReportOf(FileOf(Lines(text), known, ref))
              && items == Expected(report.transactions, tickets)
              && SumExternal(items) == report.netRemittance.amount == Rupees(StatementNet(Lines(text)))
              && figures == FiguresOf(items)
  {
    var parsed := ParseHaf(text, ref, known);
    if parsed.Err? {
      return None;
    }
    ParsedFilesReport(Lines(text), known, ref);
    var mapped := HafFileToBspReport(parsed.value);
    if mapped.Err? {
      return None;
    }
    SettlementConserves(text, known, ref, tickets);
    var items, figures := Reconcile(mapped.value.transactions, tickets);
    return Some((mapped.value, items, figures));
  }

  /** Report rows share the header's currency, so the matched amount is the total of all matched rows. */
  lemma StatementSummaryAgrees(f: HafFile, tickets: seq<Ticket>)
    requires ValidDate(f.header.periodStart) && ValidDate(f.header.periodEnd) && Reportable(f)
    ensures var report := ReportOf(f);
            var items := Expected(report.transactions, tickets);
            var figures := FiguresOf(items);
            var currency := report.netRemittance.currency;
            && figures.matchedAmount ==
                 (if figures.matchedCount == 0 then None else Some(Money(SumMatched(items, currency), currency)))
            && |items| == figures.matchedCount + figures.unmatchedExternalCount + figures.unmatchedInternalCount
                          + figures.discrepancyCount + figures.tentativeCount
  {
    SummaryAgrees(ReportOf(f).transactions, tickets, ReportOf(f).netRemittance.currency);
  }
}
