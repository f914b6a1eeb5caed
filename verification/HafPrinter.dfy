/**
 The documented column layout as a printer, and the round trip through the parser:
 printing any statement whose fields fit their columns and parsing it gives the statement back.
 */
module HafPrinter {
  import opened Wrappers
  import opened Text
  import opened Calendar
  import opened HafRecords
  import opened HafParser
  import opened HafAcceptance

  // ---- columns ----

  function AmountColumns(paise: int): (s: string)
    ensures |s| == 12
  {
    ZeroPadded(if paise < 0 then -paise else paise, 12)
  }

  function SignColumn(paise: int): (s: string)
    ensures |s| == 1
  {
    if paise < 0 then "-" else "+"
  }

  /** A signed amount: twelve digits, then the sign. */
  function SignedColumns(paise: int): (s: string)
    ensures |s| == 13
  {
    AmountColumns(paise) + SignColumn(paise)
  }

  function DateColumns(d: Date): (s: string)
    requires ValidDate(d)
    ensures |s| == 8
  {
    ZeroPadded(d.year, 4) + ZeroPadded(d.month, 2) + ZeroPadded(d.day, 2)
  }

  function NarrationColumns(n: Option<string>, width: nat): (s: string)
    requires FitsNarration(n, width)
    ensures |s| == width
  {
    PadRight(if n.Some? then n.value else "", width)
  }

  // ---- what fits ----

  predicate OneLine(s: string) {
    '\n' !in s
  }

  predicate FitsText(s: string, width: nat) {
    |s| <= width && Trimmed(s) && OneLine(s)
  }

  predicate FitsNarration(n: Option<string>, width: nat) {
    n.Some? ==> 0 < |n.value| <= width && !IsSpace(n.value[|n.value| - 1]) && OneLine(n.value)
  }

  predicate FitsAmount(paise: int) {
    -1_000_000_000_000 < paise < 1_000_000_000_000
  }

  predicate FitsAirline(code: string, known: Airlines) {
    AirlineShaped(code) && code in known
  }

  predicate FitsHeader(h: Header) {
    && FitsText(h.country, 2) && FitsText(h.currency, 3) && FitsText(h.agent, 10)
    && ValidDate(h.periodStart) && ValidDate(h.periodEnd) && FitsText(h.fileSequence, 10)
  }

  predicate FitsTrailer(t: Trailer) {
    0 <= t.recordCount < 100_000_000 && FitsAmount(t.netControlTotal)
  }

  predicate FitsRecord(r: Record, known: Airlines) {
    && FitsAirline(r.airline, known)
    && ValidDate(r.issueDate)
    && match r {
         case Ticketing(number, _, _, gross, commission, taxes, net, narration) =>
           && FitsText(number, 14) && FitsAmount(gross) && FitsAmount(commission)
           && FitsAmount(taxes) && FitsAmount(net) && FitsNarration(narration, 119)
         case Refund(number, original, _, _, net, narration) =>
           FitsText(number, 14) && FitsText(original, 14) && FitsAmount(net) && FitsNarration(narration, 144)
         case Exchange(number, original, _, _, net, narration) =>
           FitsText(number, 14) && FitsText(original, 14) && FitsAmount(net) && FitsNarration(narration, 144)
         case DebitMemo(number, _, _, amount, narration) =>
           FitsText(number, 14) && FitsAmount(amount) && FitsNarration(narration, 158)
         case CreditMemo(number, _, _, amount, narration) =>
           FitsText(number, 14) && FitsAmount(amount) && FitsNarration(narration, 158)
       }
  }

  predicate FitsFile(f: HafFile, known: Airlines) {
    && FitsHeader(f.header)
    && FitsTrailer(f.trailer)
    && forall i :: 0 <= i < |f.transactions| ==> FitsRecord(f.transactions[i], known)
  }

  // ---- lines ----

  function PrintHeader(h: Header): (s: string)
    requires FitsHeader(h)
    ensures |s| == LINE_LENGTH
  {
    "BFH01" + PadRight(h.country, 2) + PadRight(h.currency, 3) + PadRight(h.agent, 10)
    + DateColumns(h.periodStart) + DateColumns(h.periodEnd) + PadRight(h.fileSequence, 10) + Spaces(154)
  }

  function PrintTrailer(t: Trailer): (s: string)
    requires FitsTrailer(t)
    ensures |s| == LINE_LENGTH
  {
    "BFT99" + ZeroPadded(t.recordCount, 8)
    + SignedColumns(t.netControlTotal) + Spaces(174)
  }

  function PrintTicketing(r: Record): (s: string)
    requires r.Ticketing? && |r.ticketNumber| <= 14 && |r.airline| == 2 && ValidDate(r.issueDate)
    requires FitsNarration(r.narration, 119)
    ensures |s| == LINE_LENGTH
  {
    "BKS24" + PadRight(r.ticketNumber, 14) + r.airline + DateColumns(r.issueDate)
    + SignedColumns(r.gross) + SignedColumns(r.commission) + SignedColumns(r.taxes) + SignedColumns(r.net)
    + NarrationColumns(r.narration, 119)
  }

  /** The shape refunds and exchanges share. */
  function PrintLinked(code: string, number: string, original: string, airline: string, issued: Date,
                       net: int, narration: Option<string>): (s: string)
    requires |code| == 5 && |number| <= 14 && |original| <= 14 && |airline| == 2 && ValidDate(issued)
    requires FitsNarration(narration, 144)
    ensures |s| == LINE_LENGTH
  {
    code + PadRight(number, 14) + PadRight(original, 14) + airline + DateColumns(issued)
    + SignedColumns(net) + NarrationColumns(narration, 144)
  }

  function PrintMemo(code: string, number: string, airline: string, issued: Date,
                     amount: int, narration: Option<string>): (s: string)
    requires |code| == 5 && |number| <= 14 && |airline| == 2 && ValidDate(issued)
    requires FitsNarration(narration, 158)
    ensures |s| == LINE_LENGTH
  {
    code + PadRight(number, 14) + airline + DateColumns(issued)
    + SignedColumns(amount) + NarrationColumns(narration, 158)
  }

  function PrintRecord(r: Record, known: Airlines): (s: string)
    requires FitsRecord(r, known)
    ensures |s| == LINE_LENGTH
  {
    match r
    case Ticketing(_, _, _, _, _, _, _, _) => PrintTicketing(r)
    case Refund(number, original, airline, issued, net, narration) =>
      PrintLinked("BKS39", number, original, airline, issued, net, narration)
    case Exchange(number, original, airline, issued, net, narration) =>
      PrintLinked("BKS45", number, original, airline, issued, net, narration)
    case DebitMemo(number, airline, issued, amount, narration) =>
      PrintMemo("BKS46", number, airline, issued, amount, narration)
    case CreditMemo(number, airline, issued, amount, narration) =>
      PrintMemo("BKS47", number, airline, issued, amount, narration)
  }

  // ---- fields survive ----

  lemma PowersOfTen()
    ensures Pow10(2) == 100 && Pow10(4) == 10_000 && Pow10(8) == 100_000_000 && Pow10(12) == 1_000_000_000_000
  {
    assert Pow10(6) == 100 * Pow10(4);
    assert Pow10(8) == 100 * Pow10(6);
    assert Pow10(10) == 100 * Pow10(8);
    assert Pow10(12) == 100 * Pow10(10);
  }

  function Signed(sign: string, magnitude: int): int {
    if sign == "-" then -magnitude else magnitude
  }

  lemma DigitsParseAsAmount(digits: string, sign: string, field: string)
    requires AllDigits(digits) && (sign == "+" || sign == "-")
    ensures ParseAmount(digits, sign, field) == Ok(Signed(sign, DigitsValue(digits)))
  {
    DigitsTrimmed(digits);
    SignStrips(sign);
  }

  lemma SignStrips(sign: string)
    requires sign == "+" || sign == "-"
    ensures Strip(sign) == sign
  {
    assert Trimmed(sign);
    StripTrimmed(sign);
  }

  lemma AmountSurvives(paise: int, field: string)
    requires FitsAmount(paise)
    ensures ParseAmount(AmountColumns(paise), SignColumn(paise), field) == Ok(paise)
  {
    DigitsParseAsAmount(AmountColumns(paise), SignColumn(paise), field);
    PowersOfTen();
    ZeroPaddedValue(if paise < 0 then -paise else paise, 12);
  }

  lemma DigitsParseAsDate(y: string, m: string, d: string, field: string)
    requires AllDigits(y) && AllDigits(m) && AllDigits(d) && |y| == 4 && |m| == 2 && |d| == 2
    requires ValidDate(Date(DigitsValue(y), DigitsValue(m), DigitsValue(d)))
    ensures ParseDate(y + m + d, field) == Ok(Date(DigitsValue(y), DigitsValue(m), DigitsValue(d)))
  {
    var s := y + m + d;
    DigitsTrimmed(s);
    assert s[0..4] == y && s[4..6] == m && s[6..8] == d;
  }

  lemma DateSurvives(d: Date, field: string)
    requires ValidDate(d)
    ensures ParseDate(DateColumns(d), field) == Ok(d)
  {
    PowersOfTen();
    ZeroPaddedValue(d.year, 4);
    ZeroPaddedValue(d.month, 2);
    ZeroPaddedValue(d.day, 2);
    DigitsParseAsDate(ZeroPadded(d.year, 4), ZeroPadded(d.month, 2), ZeroPadded(d.day, 2), field);
  }

  lemma CountSurvives(n: nat)
    requires n < 100_000_000
    ensures ParseCount(ZeroPadded(n, 8)) == Ok(n)
  {
    PowersOfTen();
    DigitsTrimmed(ZeroPadded(n, 8));
    ParseIntPadded(n, 8);
  }

  lemma AirlineSurvives(code: string, known: Airlines)
    requires FitsAirline(code, known)
    ensures ParseAirline(code, known) == Ok(code)
  {
    assert Trimmed(code);
    StripTrimmed(code);
  }

  lemma NarrationSurvives(n: Option<string>, width: nat)
    requires FitsNarration(n, width)
    ensures ParseNarration(NarrationColumns(n, width)) == n
  {
    var s := if n.Some? then n.value else "";
    RStripPadded(s, width - |s|);
  }

  lemma TextSurvives(s: string, width: nat)
    requires FitsText(s, width)
    ensures Strip(PadRight(s, width)) == s
  {
    StripPadded(s, width);
  }

  // ---- records survive ----

  lemma HeaderLayout(code: string, country: string, currency: string, agent: string, start: string, end: string,
                     fileSequence: string, padding: string)
    requires |code| == 5 && |country| == 2 && |currency| == 3 && |agent| == 10 && |start| == |end| == 8
    requires |fileSequence| == 10 && |padding| == 154
    ensures var line := code + country + currency + agent + start + end + fileSequence + padding;
            && line[..5] == code && line[5..7] == country && line[7..10] == currency && line[10..20] == agent
            && line[20..28] == start && line[28..36] == end && line[36..46] == fileSequence
  {
  }

  lemma HeaderColumns(h: Header)
    requires FitsHeader(h)
    ensures var line := PrintHeader(h);
            && line[..5] == "BFH01"
            && line[5..7] == PadRight(h.country, 2)
            && line[7..10] == PadRight(h.currency, 3)
            && line[10..20] == PadRight(h.agent, 10)
            && line[20..28] == DateColumns(h.periodStart)
            && line[28..36] == DateColumns(h.periodEnd)
            && line[36..46] == PadRight(h.fileSequence, 10)
  {
    HeaderLayout("BFH01", PadRight(h.country, 2), PadRight(h.currency, 3), PadRight(h.agent, 10),
                 DateColumns(h.periodStart), DateColumns(h.periodEnd), PadRight(h.fileSequence, 10), Spaces(154));
  }

  lemma AssembleHeader(line: Line, h: Header)
    requires Strip(line[5..7]) == h.country && Strip(line[7..10]) == h.currency
    requires Strip(line[10..20]) == h.agent && Strip(line[36..46]) == h.fileSequence
    requires ParseDate(line[20..28], "period_start") == Ok(h.periodStart)
    requires ParseDate(line[28..36], "period_end") == Ok(h.periodEnd)
    ensures ParseHeader(line) == Ok(h)
  {
  }

  lemma HeaderSurvives(h: Header)
    requires FitsHeader(h)
    ensures ParseHeader(PrintHeader(h)) == Ok(h)
  {
    TextSurvives(h.country, 2);
    TextSurvives(h.currency, 3);
    TextSurvives(h.agent, 10);
    TextSurvives(h.fileSequence, 10);
    DateSurvives(h.periodStart, "period_start");
    DateSurvives(h.periodEnd, "period_end");
    HeaderColumns(h);
    AssembleHeader(PrintHeader(h), h);
  }

  lemma TrailerSurvives(t: Trailer)
    requires FitsTrailer(t)
    ensures ParseTrailer(PrintTrailer(t)) == Ok(t)
  {
    var line := PrintTrailer(t);
    assert line[5..13] == ZeroPadded(t.recordCount, 8);
    assert line[13..26] == SignedColumns(t.netControlTotal);
    CountSurvives(t.recordCount);
    AmountAt(line, 13, t.netControlTotal, "net_control_total");
  }

  /** Nine fields side by side, at the offsets of a ticketing line. */
  lemma TicketingLayout(code: string, number: string, airline: string, issued: string,
                        gross: string, commission: string, taxes: string, net: string, narration: string)
    requires |code| == 5 && |number| == 14 && |airline| == 2 && |issued| == 8
    requires |gross| == |commission| == |taxes| == |net| == 13 && |narration| == 119
    ensures var line := code + number + airline + issued + gross + commission + taxes + net + narration;
            && line[..5] == code && line[5..19] == number && line[19..21] == airline && line[21..29] == issued
            && line[29..42] == gross && line[42..55] == commission && line[55..68] == taxes && line[68..81] == net
            && line[81..200] == narration
  {
  }

  lemma TicketingColumns(r: Record)
    requires r.Ticketing? && |r.ticketNumber| <= 14 && |r.airline| == 2 && ValidDate(r.issueDate)
    requires FitsNarration(r.narration, 119)
    ensures var line := PrintTicketing(r);
            && line[..5] == "BKS24"
            && line[5..19] == PadRight(r.ticketNumber, 14)
            && line[19..21] == r.airline
            && line[21..29] == DateColumns(r.issueDate)
            && line[29..42] == SignedColumns(r.gross)
            && line[42..55] == SignedColumns(r.commission)
            && line[55..68] == SignedColumns(r.taxes)
            && line[68..81] == SignedColumns(r.net)
            && line[81..200] == NarrationColumns(r.narration, 119)
  {
    TicketingLayout("BKS24", PadRight(r.ticketNumber, 14), r.airline, DateColumns(r.issueDate),
                    SignedColumns(r.gross), SignedColumns(r.commission), SignedColumns(r.taxes), SignedColumns(r.net),
                    NarrationColumns(r.narration, 119));
  }

  lemma AmountAt(line: string, at: nat, paise: int, field: string)
    requires at + 13 <= |line| && line[at..at + 13] == SignedColumns(paise) && FitsAmount(paise)
    ensures ParseAmount(line[at..at + 12], line[at + 12..at + 13], field) == Ok(paise)
  {
    assert line[at..at + 12] == line[at..at + 13][..12] == AmountColumns(paise);
    assert line[at + 12..at + 13] == line[at..at + 13][12..] == SignColumn(paise);
    AmountSurvives(paise, field);
  }

  /** A ticketing line is put together from its column values. */
  lemma AssembleTicketing(line: Line, known: Airlines, r: Record)
    requires r.Ticketing?
    requires Strip(line[5..19]) == r.ticketNumber
    requires ParseAirline(line[19..21], known) == Ok(r.airline)
    requires ParseDate(line[21..29], "issue_date") == Ok(r.issueDate)
    requires ParseAmount(line[29..41], line[41..42], "gross") == Ok(r.gross)
    requires ParseAmount(line[42..54], line[54..55], "commission") == Ok(r.commission)
    requires ParseAmount(line[55..67], line[67..68], "taxes") == Ok(r.taxes)
    requires ParseAmount(line[68..80], line[80..81], "net") == Ok(r.net)
    requires ParseNarration(line[81..200]) == r.narration
    ensures ParseTicketing(line, known) == Ok(r)
  {
  }

  lemma TicketingSurvives(r: Record, known: Airlines)
    requires r.Ticketing? && FitsRecord(r, known)
    ensures ParseTicketing(PrintTicketing(r), known) == Ok(r)
  {
    TextSurvives(r.ticketNumber, 14);
    AirlineSurvives(r.airline, known);
    DateSurvives(r.issueDate, "issue_date");
    NarrationSurvives(r.narration, 119);
    TicketingColumns(r);
    var line := PrintTicketing(r);
    AmountAt(line, 29, r.gross, "gross");
    AmountAt(line, 42, r.commission, "commission");
    AmountAt(line, 55, r.taxes, "taxes");
    AmountAt(line, 68, r.net, "net");
    AssembleTicketing(line, known, r);
  }

  lemma LinkedLayout(code: string, number: string, original: string, airline: string, issued: string,
                     net: string, narration: string)
    requires |code| == 5 && |number| == |original| == 14 && |airline| == 2 && |issued| == 8
    requires |net| == 13 && |narration| == 144
    ensures var line := code + number + original + airline + issued + net + narration;
            && line[..5] == code && line[5..19] == number && line[19..33] == original && line[33..35] == airline
            && line[35..43] == issued && line[43..56] == net && line[56..200] == narration
  {
  }

  lemma LinkedColumns(code: string, number: string, original: string, airline: string, issued: Date,
                      net: int, narration: Option<string>)
    requires |code| == 5 && |number| <= 14 && |original| <= 14 && |airline| == 2 && ValidDate(issued)
    requires FitsNarration(narration, 144)
    ensures var line := PrintLinked(code, number, original, airline, issued, net, narration);
            && line[..5] == code
            && line[5..19] == PadRight(number, 14)
            && line[19..33] == PadRight(original, 14)
            && line[33..35] == airline
            && line[35..43] == DateColumns(issued)
            && line[43..56] == SignedColumns(net)
            && line[56..200] == NarrationColumns(narration, 144)
  {
    LinkedLayout(code, PadRight(number, 14), PadRight(original, 14), airline, DateColumns(issued),
                 SignedColumns(net), NarrationColumns(narration, 144));
  }

  lemma AssembleLinked(line: Line, known: Airlines, number: string, original: string, airline: string, issued: Date,
                       net: int, narration: Option<string>)
    requires Strip(line[5..19]) == number && Strip(line[19..33]) == original
    requires ParseAirline(line[33..35], known) == Ok(airline)
    requires ParseDate(line[35..43], "issue_date") == Ok(issued)
    requires ParseAmount(line[43..55], line[55..56], "net") == Ok(net)
    requires ParseNarration(line[56..200]) == narration
    ensures ParseRefund(line, known) == Ok(Refund(number, original, airline, issued, net, narration))
    ensures ParseExchange(line, known) == Ok(Exchange(number, original, airline, issued, net, narration))
  {
  }

  lemma LinkedSurvives(code: string, number: string, original: string, airline: string, issued: Date,
                       net: int, narration: Option<string>, known: Airlines)
    requires |code| == 5 && FitsText(number, 14) && FitsText(original, 14) && FitsAirline(airline, known)
    requires ValidDate(issued) && FitsAmount(net) && FitsNarration(narration, 144)
    ensures var line := PrintLinked(code, number, original, airline, issued, net, narration);
            && line[..5] == code
            && ParseRefund(line, known) == Ok(Refund(number, original, airline, issued, net, narration))
            && ParseExchange(line, known) == Ok(Exchange(number, original, airline, issued, net, narration))
  {
    var line := PrintLinked(code, number, original, airline, issued, net, narration);
    TextSurvives(number, 14);
    TextSurvives(original, 14);
    AirlineSurvives(airline, known);
    DateSurvives(issued, "issue_date");
    NarrationSurvives(narration, 144);
    LinkedColumns(code, number, original, airline, issued, net, narration);
    AmountAt(line, 43, net, "net");
    AssembleLinked(line, known, number, original, airline, issued, net, narration);
  }

  lemma MemoLayout(code: string, number: string, airline: string, issued: string, amount: string, narration: string)
    requires |code| == 5 && |number| == 14 && |airline| == 2 && |issued| == 8
    requires |amount| == 13 && |narration| == 158
    ensures var line := code + number + airline + issued + amount + narration;
            && line[..5] == code && line[5..19] == number && line[19..21] == airline
            && line[21..29] == issued && line[29..42] == amount && line[42..200] == narration
  {
  }

  lemma MemoColumns(code: string, number: string, airline: string, issued: Date,
                    amount: int, narration: Option<string>)
    requires |code| == 5 && |number| <= 14 && |airline| == 2 && ValidDate(issued)
    requires FitsNarration(narration, 158)
    ensures var line := PrintMemo(code, number, airline, issued, amount, narration);
            && line[..5] == code
            && line[5..19] == PadRight(number, 14)
            && line[19..21] == airline
            && line[21..29] == DateColumns(issued)
            && line[29..42] == SignedColumns(amount)
            && line[42..200] == NarrationColumns(narration, 158)
  {
    MemoLayout(code, PadRight(number, 14), airline, DateColumns(issued),
               SignedColumns(amount), NarrationColumns(narration, 158));
  }

  lemma AssembleMemo(line: Line, known: Airlines, number: string, airline: string, issued: Date,
                     amount: int, narration: Option<string>)
    requires Strip(line[5..19]) == number
    requires ParseAirline(line[19..21], known) == Ok(airline)
    requires ParseDate(line[21..29], "issue_date") == Ok(issued)
    requires ParseAmount(line[29..41], line[41..42], "amount") == Ok(amount)
    requires ParseNarration(line[42..200]) == narration
    ensures ParseMemo(line, known, true) == Ok(DebitMemo(number, airline, issued, amount, narration))
    ensures ParseMemo(line, known, false) == Ok(CreditMemo(number, airline, issued, amount, narration))
  {
  }

  lemma MemoSurvives(code: string, number: string, airline: string, issued: Date,
                     amount: int, narration: Option<string>, known: Airlines)
    requires |code| == 5 && FitsText(number, 14) && FitsAirline(airline, known)
    requires ValidDate(issued) && FitsAmount(amount) && FitsNarration(narration, 158)
    ensures var line := PrintMemo(code, number, airline, issued, amount, narration);
            && line[..5] == code
            && ParseMemo(line, known, true) == Ok(DebitMemo(number, airline, issued, amount, narration))
            && ParseMemo(line, known, false) == Ok(CreditMemo(number, airline, issued, amount, narration))
  {
    var line := PrintMemo(code, number, airline, issued, amount, narration);
    TextSurvives(number, 14);
    AirlineSurvives(airline, known);
    DateSurvives(issued, "issue_date");
    NarrationSurvives(narration, 158);
    MemoColumns(code, number, airline, issued, amount, narration);
    AmountAt(line, 29, amount, "amount");
    AssembleMemo(line, known, number, airline, issued, amount, narration);
  }

  lemma RecordSurvives(r: Record, known: Airlines)
    requires FitsRecord(r, known)
    ensures var line := PrintRecord(r, known);
            IsTransactionCode(line[..5]) && ParseTransaction(line, known) == Ok(r)
  {
    match r
    case Ticketing(_, _, _, _, _, _, _, _) =>
      TicketingSurvives(r, known);
      TicketingColumns(r);
    case Refund(number, original, airline, issued, net, narration) =>
      LinkedSurvives("BKS39", number, original, airline, issued, net, narration, known);
    case Exchange(number, original, airline, issued, net, narration) =>
      LinkedSurvives("BKS45", number, original, airline, issued, net, narration, known);
    case DebitMemo(number, airline, issued, amount, narration) =>
      MemoSurvives("BKS46", number, airline, issued, amount, narration, known);
    case CreditMemo(number, airline, issued, amount, narration) =>
      MemoSurvives("BKS47", number, airline, issued, amount, narration, known);
  }

  lemma ReadTransaction(line: Line, r: Record, known: Airlines)
    requires IsTransactionCode(line[..5]) && ParseTransaction(line, known) == Ok(r)
    ensures ReadLine(line, known) == TransactionRead(r)
  {
  }

  lemma ReadHeaderLine(line: Line, h: Header, known: Airlines)
    requires line[..5] == "BFH01" && ParseHeader(line) == Ok(h)
    ensures ReadLine(line, known) == HeaderRead(h)
  {
  }

  lemma ReadTrailerLine(line: Line, t: Trailer, known: Airlines)
    requires line[..5] == "BFT99" && ParseTrailer(line) == Ok(t)
    ensures ReadLine(line, known) == TrailerRead(t)
  {
  }

  lemma HeaderReads(h: Header, known: Airlines)
    requires FitsHeader(h)
    ensures ReadLine(PrintHeader(h), known) == HeaderRead(h)
  {
    HeaderSurvives(h);
    HeaderColumns(h);
    ReadHeaderLine(PrintHeader(h), h, known);
  }

  lemma TrailerReads(t: Trailer, known: Airlines)
    requires FitsTrailer(t)
    ensures ReadLine(PrintTrailer(t), known) == TrailerRead(t)
  {
    TrailerSurvives(t);
    assert PrintTrailer(t)[..5] == "BFT99";
    ReadTrailerLine(PrintTrailer(t), t, known);
  }

  lemma RecordReads(r: Record, known: Airlines)
    requires FitsRecord(r, known)
    ensures ReadLine(PrintRecord(r, known), known) == TransactionRead(r)
  {
    RecordSurvives(r, known);
    ReadTransaction(PrintRecord(r, known), r, known);
  }

  // ---- files survive ----

  function PrintRecords(rs: seq<Record>, known: Airlines): (lines: seq<string>)
    requires forall i :: 0 <= i < |rs| ==> FitsRecord(rs[i], known)
    ensures |lines| == |rs|
  {
    seq(|rs|, i requires 0 <= i < |rs| => PrintRecord(rs[i], known))
  }

  function PrintLines(f: HafFile, known: Airlines): (lines: seq<string>)
    requires FitsFile(f, known)
  {
    [PrintHeader(f.header)] + PrintRecords(f.transactions, known) + [PrintTrailer(f.trailer)]
  }

  /** Each line followed by LF. */
  function Unlines(lines: seq<string>): string {
    if lines == [] then [] else lines[0] + ['\n'] + Unlines(lines[1..])
  }

  function PrintFile(f: HafFile, known: Airlines): string
    requires FitsFile(f, known)
  {
    Unlines(PrintLines(f, known))
  }

  function TransactionReadings(rs: seq<Record>): (r: seq<Reading>)
    ensures |r| == |rs|
  {
    seq(|rs|, i requires 0 <= i < |rs| => TransactionRead(rs[i]))
  }

  lemma {:induction false} GatherTransactions(rs: seq<Record>)
    ensures Gather(TransactionReadings(rs)) == Digest([], rs, [], true)
  {
    if rs != [] {
      var n := |rs| - 1;
      GatherTransactions(rs[..n]);
      GatherStep(TransactionReadings(rs), TransactionReadings(rs[..n]));
      assert rs == rs[..n] + [rs[n]];
    }
  }

  lemma RecordsRead(rs: seq<Record>, known: Airlines)
    requires forall i :: 0 <= i < |rs| ==> FitsRecord(rs[i], known)
    ensures Readings(PrintRecords(rs, known), known) == TransactionReadings(rs)
  {
    forall i | 0 <= i < |rs| {
      RecordReads(rs[i], known);
    }
  }

  lemma PrintedReadings(f: HafFile, known: Airlines)
    requires FitsFile(f, known)
    ensures Readings(PrintLines(f, known), known)
         == [HeaderRead(f.header)] + TransactionReadings(f.transactions) + [TrailerRead(f.trailer)]
  {
    var h, rs, t := [PrintHeader(f.header)], PrintRecords(f.transactions, known), [PrintTrailer(f.trailer)];
    ReadingsConcat(h + rs, t, known);
    ReadingsConcat(h, rs, known);
    assert Readings(h, known) == [HeaderRead(f.header)] by { HeaderReads(f.header, known); }
    assert Readings(t, known) == [TrailerRead(f.trailer)] by { TrailerReads(f.trailer, known); }
    assert Readings(rs, known) == TransactionReadings(f.transactions) by { RecordsRead(f.transactions, known); }
  }

  lemma GatherFile(h: Header, rs: seq<Record>, t: Trailer)
    ensures Gather([HeaderRead(h)] + TransactionReadings(rs) + [TrailerRead(t)]) == Digest([h], rs, [t], true)
  {
    GatherConcat([HeaderRead(h)] + TransactionReadings(rs), [TrailerRead(t)]);
    GatherConcat([HeaderRead(h)], TransactionReadings(rs));
    GatherTransactions(rs);
    GatherStep([HeaderRead(h)], []);
    GatherStep([TrailerRead(t)], []);
  }

  lemma SummaryOfPrinted(f: HafFile, known: Airlines)
    requires FitsFile(f, known)
    ensures Summary(PrintLines(f, known), known) == Digest([f.header], f.transactions, [f.trailer], true)
  {
    PrintedReadings(f, known);
    GatherFile(f.header, f.transactions, f.trailer);
  }

  /** A line that survives being written to a text file. */
  predicate Writable(line: string) {
    OneLine(line) && line != [] && line[|line| - 1] != '\r'
  }

  lemma {:induction false} SplitOneLine(line: string, rest: string)
    requires OneLine(line)
    ensures SplitLines(line + ['\n'] + rest) == [line] + SplitLines(rest)
  {
    var s := line + ['\n'] + rest;
    if line == [] {
      assert s == ['\n'] + rest;
      assert s[1..] == rest;
    } else {
      assert s[1..] == line[1..] + ['\n'] + rest;
      SplitOneLine(line[1..], rest);
      assert [line[0]] + line[1..] == line;
    }
  }

  lemma {:induction false} SplitUnlines(lines: seq<string>)
    requires forall i :: 0 <= i < |lines| ==> Writable(lines[i])
    ensures SplitLines(Unlines(lines)) == lines + [[]]
  {
    if lines != [] {
      SplitOneLine(lines[0], Unlines(lines[1..]));
      SplitUnlines(lines[1..]);
      assert lines == [lines[0]] + lines[1..];
    }
  }

  lemma DropsFinalEmpty(lines: seq<string>)
    ensures DropFinalEmpty(lines + [[]]) == lines
  {
  }

  lemma NothingToStrip(lines: seq<string>)
    requires forall i :: 0 <= i < |lines| ==> Writable(lines[i])
    ensures StripCrs(lines) == lines
  {
  }

  lemma LinesOfUnlines(lines: seq<string>)
    requires forall i :: 0 <= i < |lines| ==> Writable(lines[i])
    ensures Lines(Unlines(lines)) == lines
  {
    LinesWithoutNormalising(Unlines(lines));
    SplitUnlines(lines);
    DropsFinalEmpty(lines);
    NothingToStrip(lines);
  }

  lemma PaddedOneLine(s: string, width: nat)
    requires |s| <= width && OneLine(s)
    ensures OneLine(PadRight(s, width))
  {
  }

  lemma DigitsOneLine(n: nat, width: nat)
    ensures OneLine(ZeroPadded(n, width))
  {
  }

  lemma DatesOneLine(d: Date)
    requires ValidDate(d)
    ensures OneLine(DateColumns(d))
  {
    DigitsOneLine(d.year, 4);
    DigitsOneLine(d.month, 2);
    DigitsOneLine(d.day, 2);
  }

  lemma AmountsOneLine(paise: int)
    ensures OneLine(SignedColumns(paise))
  {
    DigitsOneLine(if paise < 0 then -paise else paise, 12);
  }

  lemma LastColumnWritable(prefix: string, n: Option<string>, width: nat)
    requires OneLine(prefix) && FitsNarration(n, width) && width > 0
    ensures Writable(prefix + NarrationColumns(n, width))
  {
    var s := NarrationColumns(n, width);
    PaddedOneLine(if n.Some? then n.value else "", width);
    assert s[width - 1] == ' ' || (n.Some? && s[width - 1] == n.value[|n.value| - 1]);
  }

  lemma TicketingWritable(r: Record, known: Airlines)
    requires r.Ticketing? && FitsRecord(r, known)
    ensures Writable(PrintTicketing(r))
  {
    DatesOneLine(r.issueDate);
    AmountsOneLine(r.gross);
    AmountsOneLine(r.commission);
    AmountsOneLine(r.taxes);
    AmountsOneLine(r.net);
    LastColumnWritable(PrintTicketing(r)[..81], r.narration, 119);
    TicketingColumns(r);
    assert PrintTicketing(r) == PrintTicketing(r)[..81] + NarrationColumns(r.narration, 119);
  }

  lemma LinkedWritable(code: string, number: string, original: string, airline: string, issued: Date,
                       net: int, narration: Option<string>)
    requires |code| == 5 && OneLine(code) && FitsText(number, 14) && FitsText(original, 14)
    requires |airline| == 2 && OneLine(airline) && ValidDate(issued) && FitsNarration(narration, 144)
    ensures Writable(PrintLinked(code, number, original, airline, issued, net, narration))
  {
    DatesOneLine(issued);
    AmountsOneLine(net);
    var line := PrintLinked(code, number, original, airline, issued, net, narration);
    LastColumnWritable(line[..56], narration, 144);
    LinkedColumns(code, number, original, airline, issued, net, narration);
    assert line == line[..56] + NarrationColumns(narration, 144);
  }

  lemma MemoWritable(code: string, number: string, airline: string, issued: Date,
                     amount: int, narration: Option<string>)
    requires |code| == 5 && OneLine(code) && FitsText(number, 14)
    requires |airline| == 2 && OneLine(airline) && ValidDate(issued) && FitsNarration(narration, 158)
    ensures Writable(PrintMemo(code, number, airline, issued, amount, narration))
  {
    DatesOneLine(issued);
    AmountsOneLine(amount);
    var line := PrintMemo(code, number, airline, issued, amount, narration);
    LastColumnWritable(line[..42], narration, 158);
    MemoColumns(code, number, airline, issued, amount, narration);
    assert line == line[..42] + NarrationColumns(narration, 158);
  }

  lemma RecordWritable(r: Record, known: Airlines)
    requires FitsRecord(r, known)
    ensures Writable(PrintRecord(r, known))
  {
    assert OneLine(r.airline);
    match r
    case Ticketing(_, _, _, _, _, _, _, _) =>
      TicketingWritable(r, known);
    case Refund(number, original, airline, issued, net, narration) =>
      LinkedWritable("BKS39", number, original, airline, issued, net, narration);
    case Exchange(number, original, airline, issued, net, narration) =>
      LinkedWritable("BKS45", number, original, airline, issued, net, narration);
    case DebitMemo(number, airline, issued, amount, narration) =>
      MemoWritable("BKS46", number, airline, issued, amount, narration);
    case CreditMemo(number, airline, issued, amount, narration) =>
      MemoWritable("BKS47", number, airline, issued, amount, narration);
  }

  lemma HeaderWritable(h: Header)
    requires FitsHeader(h)
    ensures Writable(PrintHeader(h))
  {
    DatesOneLine(h.periodStart);
    DatesOneLine(h.periodEnd);
  }

  lemma TrailerWritable(t: Trailer)
    requires FitsTrailer(t)
    ensures Writable(PrintTrailer(t))
  {
    DigitsOneLine(t.recordCount, 8);
    AmountsOneLine(t.netControlTotal);
  }

  lemma PrintedIsWritable(f: HafFile, known: Airlines)
    requires FitsFile(f, known)
    ensures forall i :: 0 <= i < |PrintLines(f, known)| ==> Writable(PrintLines(f, known)[i])
  {
    HeaderWritable(f.header);
    TrailerWritable(f.trailer);
    forall i | 0 <= i < |f.transactions|
      ensures Writable(PrintRecords(f.transactions, known)[i])
    {
      RecordWritable(f.transactions[i], known);
    }
  }

  /** Printing then parsing is the identity on every statement that fits its columns, with LF or CR LF endings. */
  lemma HafRoundTrip(f: HafFile, known: Airlines)
    requires FitsFile(f, known)
    ensures Accepts(Lines(PrintFile(f, known)), known)
    ensures FileOf(Lines(PrintFile(f, known)), known, f.sourceRef) == f
    ensures Lines(ToCrLf(PrintFile(f, known))) == Lines(PrintFile(f, known))
  {
    PrintedIsWritable(f, known);
    LinesOfUnlines(PrintLines(f, known));
    SummaryOfPrinted(f, known);
    LineTerminatorsDoNotMatter(PrintFile(f, known));
  }

  // ---- what each field accepts, exactly ----

  /** An airline field is accepted exactly for two capital letters or digits that are listed, and gives them. */
  lemma AirlineFieldIff(raw: string, known: Airlines)
    ensures ParseAirline(raw, known).Ok? <==>
              var s := Strip(raw);
              && |s| == 2 && s in known
              && forall i :: 0 <= i < 2 ==> '0' <= s[i] <= '9' || 'A' <= s[i] <= 'Z'
    ensures ParseAirline(raw, known).Ok? ==> ParseAirline(raw, known).value == Strip(raw)
  {
  }

  /** A date field is accepted exactly when it is the eight digits of a calendar date, and gives that date. */
  lemma DateFieldIff(raw: string, field: string, d: Date)
    ensures ParseDate(raw, field) == Ok(d) <==> ValidDate(d) && Strip(raw) == DateColumns(d)
  {
    var s := Strip(raw);
    if ParseDate(raw, field) == Ok(d) {
      DigitsArePadded(s[0..4]);
      DigitsArePadded(s[4..6]);
      DigitsArePadded(s[6..8]);
      assert s == s[0..4] + s[4..6] + s[6..8];
    }
    if ValidDate(d) && s == DateColumns(d) {
      DateSurvives(d, field);
      StripTwice(raw);
    }
  }

  /** The sign column: a minus negates, a plus or any blank does not, and nothing else is accepted. */
  lemma SignColumnMeaning(magnitude: string, sign: char, field: string)
    requires AllDigits(Strip(magnitude))
    ensures var value: int := DigitsValue(Strip(magnitude));
            && (sign == '-' ==> ParseAmount(magnitude, [sign], field) == Ok(-value))
            && (sign == '+' || sign == ' ' || sign == '\t' ==> ParseAmount(magnitude, [sign], field) == Ok(value))
            && (sign != '-' && sign != '+' && !IsSpace(sign) ==> ParseAmount(magnitude, [sign], field).Err?)
  {
    assert LStrip([sign]) == if IsSpace(sign) then LStrip([]) else [sign] by { assert [sign][1..] == []; }
    assert RStrip([sign]) == if IsSpace(sign) then RStrip([]) else [sign] by { assert [sign][..0] == []; }
  }

  /** An amount without digits is refused, whatever its sign. */
  lemma AmountNeedsDigits(magnitude: string, sign: string, field: string)
    requires !AllDigits(Strip(magnitude))
    ensures ParseAmount(magnitude, sign, field) == Err(FieldError(field, NotDigits))
  {
  }
}
