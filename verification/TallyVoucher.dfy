/**
 Canonical journal entries and invoices, their validators, and their translation to Tally voucher rows:
 a debit becomes a negative amount, a credit a positive one.
 */
module TallyVoucher {
  import opened Wrappers
  import opened Text
  import opened Canonical
  import opened Ledger

  // ---- canonical journal entries ----

  datatype JournalLine = JournalLine(account: Id, debit: Option<Money>, credit: Option<Money>)

  /** The line validator: exactly one side is set. */
  predicate ValidLine(l: JournalLine) {
    l.debit.Some? != l.credit.Some?
  }

  predicate ValidLines(lines: seq<JournalLine>) {
    forall i :: 0 <= i < |lines| ==> ValidLine(lines[i])
  }

  function AmountOf(l: JournalLine): Money
    requires ValidLine(l)
  {
    if l.debit.Some? then l.debit.value else l.credit.value
  }

  /** Debits count positive, credits negative. */
  function SignedOf(l: JournalLine): real
    requires ValidLine(l)
  {
    if l.debit.Some? then l.debit.value.amount else -l.credit.value.amount
  }

  function NetIn(lines: seq<JournalLine>, currency: string): real
    requires ValidLines(lines)
  {
    if lines == [] then 0.0
    else
      var last := lines[|lines| - 1];
      NetIn(lines[..|lines| - 1], currency) + if AmountOf(last).currency == currency then SignedOf(last) else 0.0
  }

  /** Total debits equal total credits in each currency. */
  ghost predicate Balanced(lines: seq<JournalLine>)
    requires ValidLines(lines)
  {
    forall c :: NetIn(lines, c) == 0.0
  }

  method ValidateBalance(lines: seq<JournalLine>) returns (ok: bool)
    requires ValidLines(lines)
    ensures ok <==> Balanced(lines)
  {
    var byCurrency: map<string, real> := map[];
    for i := 0 to |lines|
      invariant forall c :: NetIn(lines[..i], c) == if c in byCurrency then byCurrency[c] else 0.0
    {
      var money, signed := AmountOf(lines[i]), SignedOf(lines[i]);
      assert lines[..i + 1][..i] == lines[..i];
      var net := if money.currency in byCurrency then byCurrency[money.currency] else 0.0;
      byCurrency := byCurrency[money.currency := net + signed];
    }
    assert lines[..|lines|] == lines;
    ok := forall c :: c in byCurrency ==> byCurrency[c] == 0.0;
    if !ok {
      ghost var c :| c in byCurrency && byCurrency[c] != 0.0;
      assert NetIn(lines, c) != 0.0;
    }
  }

  // ---- translation ----

  datatype Entry = Entry(ledger: string, amount: real, deemedPositive: bool)

  datatype TallyError = UnknownAccount(account: Id) | EmptyName(account: Id)

  function Abs(x: real): real {
    if x < 0.0 then -x else x
  }

  function LedgerName(names: map<Id, string>, account: Id): Result<string, TallyError> {
    if account !in names then Err(UnknownAccount(account))
    else if Strip(names[account]) == "" then Err(EmptyName(account))
    else Ok(names[account])
  }

  /** The amount of the voucher row for a line. */
  function TallyAmount(l: JournalLine): real
    requires ValidLine(l)
  {
    if l.debit.Some? then -Abs(l.debit.value.amount) else Abs(l.credit.value.amount)
  }

  function LineToEntry(l: JournalLine, names: map<Id, string>): Result<Entry, TallyError>
    requires ValidLine(l)
  {
    var name :- LedgerName(names, l.account);
    Ok(Entry(name, TallyAmount(l), l.debit.Some?))
  }

  /** One voucher row per line, in order, or the first ledger name that cannot be resolved. */
  method JournalToTally(lines: seq<JournalLine>, names: map<Id, string>) returns (r: Result<seq<Entry>, TallyError>)
    requires ValidLines(lines)
    ensures r.Ok? <==> forall i :: 0 <= i < |lines| ==> LedgerName(names, lines[i].account).Ok?
    ensures r.Ok? ==> |r.value| == |lines|
    ensures r.Ok? ==> forall i :: 0 <= i < |lines| ==>
              r.value[i] == Entry(names[lines[i].account], TallyAmount(lines[i]), lines[i].debit.Some?)
    ensures r.Ok? ==> SumEntries(r.value) == SumTally(lines)
    ensures r.Err? ==> exists i ::
              && 0 <= i < |lines| && LedgerName(names, lines[i].account) == Err(r.error)
              && forall j :: 0 <= j < i ==> LedgerName(names, lines[j].account).Ok?
  {
    var entries: seq<Entry> := [];
    for i := 0 to |lines|
      invariant |entries| == i
      invariant forall j :: 0 <= j < i ==> LineToEntry(lines[j], names) == Ok(entries[j])
    {
      var entry := LineToEntry(lines[i], names);
      if entry.Err? {
        return Err(entry.error);
      }
      entries := entries + [entry.value];
    }
    VoucherSumsLines(lines, entries);
    return Ok(entries);
  }

  // ---- meaning of a journal voucher ----

  function SumTally(lines: seq<JournalLine>): real
    requires ValidLines(lines)
  {
    if lines == [] then 0.0 else SumTally(lines[..|lines| - 1]) + TallyAmount(lines[|lines| - 1])
  }

  /** The rows of a voucher sum to what its lines sum to with Tally's signs. */
  lemma {:induction false} VoucherSumsLines(lines: seq<JournalLine>, entries: seq<Entry>)
    requires ValidLines(lines) && |entries| == |lines|
    requires forall i :: 0 <= i < |lines| ==> entries[i].amount == TallyAmount(lines[i])
    ensures SumEntries(entries) == SumTally(lines)
  {
    if lines != [] {
      VoucherSumsLines(lines[..|lines| - 1], entries[..|lines| - 1]);
    }
  }

  function SumSigned(lines: seq<JournalLine>): real
    requires ValidLines(lines)
  {
    if lines == [] then 0.0 else SumSigned(lines[..|lines| - 1]) + SignedOf(lines[|lines| - 1])
  }

  function Without(lines: seq<JournalLine>, currency: string): (rest: seq<JournalLine>)
    requires ValidLines(lines)
    ensures ValidLines(rest) && |rest| <= |lines|
  {
    if lines == [] then []
    else
      var last := lines[|lines| - 1];
      Without(lines[..|lines| - 1], currency) + if AmountOf(last).currency == currency then [] else [last]
  }

  lemma SumSignedAppend(lines: seq<JournalLine>, l: JournalLine)
    requires ValidLines(lines) && ValidLine(l)
    ensures SumSigned(lines + [l]) == SumSigned(lines) + SignedOf(l)
  {
    assert (lines + [l])[..|lines|] == lines;
  }

  lemma NetInAppend(lines: seq<JournalLine>, l: JournalLine, c: string)
    requires ValidLines(lines) && ValidLine(l)
    ensures NetIn(lines + [l], c) == NetIn(lines, c) + if AmountOf(l).currency == c then SignedOf(l) else 0.0
  {
    assert (lines + [l])[..|lines|] == lines;
  }

  /** Taking one currency out takes its net out of the total. */
  lemma {:induction false} TakeOutOfTotal(lines: seq<JournalLine>, currency: string)
    requires ValidLines(lines)
    ensures SumSigned(lines) == NetIn(lines, currency) + SumSigned(Without(lines, currency))
  {
    if lines != [] {
      var n := |lines| - 1;
      var rest := Without(lines[..n], currency);
      TakeOutOfTotal(lines[..n], currency);
      if AmountOf(lines[n]).currency == currency {
        assert Without(lines, currency) == rest;
      } else {
        SumSignedAppend(rest, lines[n]);
      }
    }
  }

  /** Taking one currency out leaves the nets of the others alone. */
  lemma {:induction false} TakeOutOfNets(lines: seq<JournalLine>, currency: string, c: string)
    requires ValidLines(lines)
    ensures NetIn(Without(lines, currency), c) == if c == currency then 0.0 else NetIn(lines, c)
  {
    if lines != [] {
      var n := |lines| - 1;
      var rest := Without(lines[..n], currency);
      TakeOutOfNets(lines[..n], currency, c);
      if AmountOf(lines[n]).currency == currency {
        assert Without(lines, currency) == rest;
      } else {
        NetInAppend(rest, lines[n], c);
      }
    }
  }

  /** Balanced in each currency, hence balanced over all. */
  lemma {:induction false} BalancedSumsToZero(lines: seq<JournalLine>)
    requires ValidLines(lines) && Balanced(lines)
    ensures SumSigned(lines) == 0.0
    decreases |lines|
  {
    if lines != [] {
      var currency := AmountOf(lines[|lines| - 1]).currency;
      forall c
        ensures NetIn(Without(lines, currency), c) == 0.0
      {
        TakeOutOfNets(lines, currency, c);
      }
      TakeOutOfTotal(lines, currency);
      BalancedSumsToZero(Without(lines, currency));
    }
  }

  predicate NonNegative(lines: seq<JournalLine>)
    requires ValidLines(lines)
  {
    forall i :: 0 <= i < |lines| ==> AmountOf(lines[i]).amount >= 0.0
  }

  /** Negative debits, and negative credits: what the absolute value misreads. */
  function NegativeDebits(lines: seq<JournalLine>): real
    requires ValidLines(lines)
  {
    if lines == [] then 0.0
    else
      var last := lines[|lines| - 1];
      NegativeDebits(lines[..|lines| - 1]) + if last.debit.Some? && SignedOf(last) < 0.0 then SignedOf(last) else 0.0
  }

  function NegativeCredits(lines: seq<JournalLine>): real
    requires ValidLines(lines)
  {
    if lines == [] then 0.0
    else
      var last := lines[|lines| - 1];
      NegativeCredits(lines[..|lines| - 1]) + if last.credit.Some? && SignedOf(last) > 0.0 then -SignedOf(last) else 0.0
  }

  lemma {:induction false} VoucherSum(lines: seq<JournalLine>)
    requires ValidLines(lines)
    ensures SumTally(lines) == -SumSigned(lines) + 2.0 * NegativeDebits(lines) - 2.0 * NegativeCredits(lines)
    ensures NonNegative(lines) ==> NegativeDebits(lines) == NegativeCredits(lines) == 0.0
  {
    if lines != [] {
      VoucherSum(lines[..|lines| - 1]);
    }
  }

  /** A validated entry gives a balanced voucher exactly when its negative debits and negative credits cancel. */
  lemma VoucherBalancesIff(lines: seq<JournalLine>)
    requires ValidLines(lines) && Balanced(lines)
    ensures SumTally(lines) == 0.0 <==> NegativeDebits(lines) == NegativeCredits(lines)
    ensures NonNegative(lines) ==> SumTally(lines) == 0.0
  {
    BalancedSumsToZero(lines);
    VoucherSum(lines);
  }

  /** Each row says what its line says, with Tally's sign, exactly for non-negative amounts. */
  lemma RowMeansLine(l: JournalLine)
    requires ValidLine(l)
    ensures TallyAmount(l) == -SignedOf(l) <==> AmountOf(l).amount >= 0.0
  {
  }

  /** The validator accepts debit 5 with debit -5; the voucher then sums to -10. */
  lemma NegativeDebitUnbalancesVoucher(account: Id, currency: string)
    ensures var lines := [JournalLine(account, Some(Money(5.0, currency)), None),
                          JournalLine(account, Some(Money(-5.0, currency)), None)];
            ValidLines(lines) && Balanced(lines) && SumTally(lines) == -10.0
  {
    var lines := [JournalLine(account, Some(Money(5.0, currency)), None),
                  JournalLine(account, Some(Money(-5.0, currency)), None)];
    assert lines[..1] == [lines[0]];
    assert [lines[0]][..0] == [];
    forall c
      ensures NetIn(lines, c) == 0.0
    {
      assert NetIn([lines[0]], c) == if c == currency then 5.0 else 0.0;
    }
    assert SumTally([lines[0]]) == -5.0;
  }

  // ---- two-decimal formatting ----

  /** Sum of the amounts as written, with two decimals. */
  function SumWritten(lines: seq<JournalLine>): real
    requires ValidLines(lines)
  {
    if lines == [] then 0.0 else SumWritten(lines[..|lines| - 1]) + Value(Cents(TallyAmount(lines[|lines| - 1])))
  }

  lemma {:induction false} WrittenNearSum(lines: seq<JournalLine>)
    requires ValidLines(lines)
    ensures -0.005 * |lines| as real <= SumWritten(lines) - SumTally(lines) <= 0.005 * |lines| as real
  {
    if lines != [] {
      var n := |lines| - 1;
      WrittenNearSum(lines[..n]);
      CentsNear(TallyAmount(lines[n]));
    }
  }

  /** A balanced, non-negative entry of n lines is written within 0.005 n of zero. */
  lemma WrittenVoucherNearlyBalanced(lines: seq<JournalLine>)
    requires ValidLines(lines) && Balanced(lines) && NonNegative(lines)
    ensures -0.005 * |lines| as real <= SumWritten(lines) <= 0.005 * |lines| as real
  {
    VoucherBalancesIff(lines);
    WrittenNearSum(lines);
  }

  // ---- sales vouchers ----

  datatype InvoiceLine = InvoiceLine(subtotal: Money, taxes: seq<Money>, salesLedger: Option<Id>)

  datatype Invoice = Invoice(client: Id, grandTotal: Money, lines: seq<InvoiceLine>)

  predicate LineResolves(l: InvoiceLine, names: map<Id, string>) {
    l.salesLedger.Some? ==> LedgerName(names, l.salesLedger.value).Ok?
  }

  function SalesLedger(l: InvoiceLine, names: map<Id, string>): string
    requires LineResolves(l, names)
  {
    if l.salesLedger.Some? then names[l.salesLedger.value] else "Sales"
  }

  function TaxEntries(taxes: seq<Money>): (entries: seq<Entry>)
    ensures |entries| == |taxes|
  {
    seq(|taxes|, i requires 0 <= i < |taxes| => Entry("Duties & Taxes", Abs(taxes[i].amount), false))
  }

  predicate LinesResolve(lines: seq<InvoiceLine>, names: map<Id, string>) {
    forall i :: 0 <= i < |lines| ==> LineResolves(lines[i], names)
  }

  function LineEntries(l: InvoiceLine, names: map<Id, string>): seq<Entry>
    requires LineResolves(l, names)
  {
    [Entry(SalesLedger(l, names), Abs(l.subtotal.amount), false)] + TaxEntries(l.taxes)
  }

  /** The income side: for each line its subtotal, then its taxes. */
  function IncomeEntries(lines: seq<InvoiceLine>, names: map<Id, string>): seq<Entry>
    requires LinesResolve(lines, names)
  {
    if lines == [] then []
    else
      var n := |lines| - 1;
      IncomeEntries(lines[..n], names) + LineEntries(lines[n], names)
  }

  predicate Resolves(inv: Invoice, names: map<Id, string>) {
    LedgerName(names, inv.client).Ok? && LinesResolve(inv.lines, names)
  }

  function VoucherEntries(inv: Invoice, names: map<Id, string>): seq<Entry>
    requires Resolves(inv, names)
  {
    [Entry(names[inv.client], -Abs(inv.grandTotal.amount), true)] + IncomeEntries(inv.lines, names)
  }

  lemma ResolveStep(lines: seq<InvoiceLine>, names: map<Id, string>, i: nat)
    requires i < |lines|
    ensures LinesResolve(lines[..i + 1], names) <==> LinesResolve(lines[..i], names) && LineResolves(lines[i], names)
    ensures LinesResolve(lines, names) ==> LineResolves(lines[i], names)
  {
    assert lines[..i + 1] == lines[..i] + [lines[i]];
  }

  /** One more line adds its rows to the income side. */
  lemma IncomeStep(before: seq<Entry>, entries: seq<Entry>, lines: seq<InvoiceLine>, names: map<Id, string>, i: nat)
    requires i < |lines| && LinesResolve(lines[..i], names) && LineResolves(lines[i], names)
    requires entries == before + IncomeEntries(lines[..i], names)
    ensures LinesResolve(lines[..i + 1], names)
    ensures entries + LineEntries(lines[i], names) == before + IncomeEntries(lines[..i + 1], names)
  {
    ResolveStep(lines, names, i);
    assert lines[..i + 1][..i] == lines[..i];
  }

  predicate FirstUnresolved(lines: seq<InvoiceLine>, names: map<Id, string>, i: int, e: TallyError)
    requires 0 <= i < |lines|
  {
    && LinesResolve(lines[..i], names)
    && lines[i].salesLedger.Some? && LedgerName(names, lines[i].salesLedger.value) == Err(e)
  }

  method InvoiceToTally(inv: Invoice, names: map<Id, string>) returns (r: Result<seq<Entry>, TallyError>)
    ensures r.Ok? <==> Resolves(inv, names)
    ensures r.Ok? ==> r.value == VoucherEntries(inv, names)
    ensures LedgerName(names, inv.client).Err? ==> r.Err? && LedgerName(names, inv.client) == Err(r.error)
    ensures r.Err? && LedgerName(names, inv.client).Ok? ==>
              exists i :: 0 <= i < |inv.lines| && FirstUnresolved(inv.lines, names, i, r.error)
  {
    var party := LedgerName(names, inv.client);
    if party.Err? {
      return Err(party.error);
    }
    r := AddLines([Entry(party.value, -Abs(inv.grandTotal.amount), true)], inv.lines, names);
  }

  /** The income side: the rows of each line in turn, or the first ledger that cannot be resolved. */
  method AddLines(before: seq<Entry>, lines: seq<InvoiceLine>, names: map<Id, string>)
    returns (r: Result<seq<Entry>, TallyError>)
    ensures r.Ok? <==> LinesResolve(lines, names)
    ensures r.Ok? ==> r.value == before + IncomeEntries(lines, names)
    ensures r.Err? ==> exists i :: 0 <= i < |lines| && FirstUnresolved(lines, names, i, r.error)
  {
    var entries := before;
    for i := 0 to |lines|
      invariant LinesResolve(lines[..i], names)
      invariant entries == before + IncomeEntries(lines[..i], names)
    {
      var added := AddLine(entries, lines[i], names);
      ResolveStep(lines, names, i);
      if added.Err? {
        assert FirstUnresolved(lines, names, i, added.error);
        return Err(added.error);
      }
      IncomeStep(before, entries, lines, names, i);
      entries := added.value;
    }
    assert lines[..|lines|] == lines;
    return Ok(entries);
  }

  /** The loop body: one row for the subtotal, on its sales ledger or the default, then one per tax. */
  method AddLine(before: seq<Entry>, line: InvoiceLine, names: map<Id, string>)
    returns (r: Result<seq<Entry>, TallyError>)
    ensures r.Ok? <==> LineResolves(line, names)
    ensures r.Ok? ==> r.value == before + LineEntries(line, names)
    ensures r.Err? ==> line.salesLedger.Some? && LedgerName(names, line.salesLedger.value) == Err(r.error)
  {
    var ledger := "Sales";
    if line.salesLedger.Some? {
      var resolved := LedgerName(names, line.salesLedger.value);
      if resolved.Err? {
        return Err(resolved.error);
      }
      ledger := resolved.value;
    }
    var entries := AddTaxes(before + [Entry(ledger, Abs(line.subtotal.amount), false)], line.taxes);
    return Ok(entries);
  }

  method AddTaxes(before: seq<Entry>, taxes: seq<Money>) returns (entries: seq<Entry>)
    ensures entries == before + TaxEntries(taxes)
  {
    entries := before;
    for k := 0 to |taxes|
      invariant entries == before + TaxEntries(taxes)[..k]
    {
      entries := entries + [Entry("Duties & Taxes", Abs(taxes[k].amount), false)];
    }
  }

  // ---- meaning of a sales voucher ----

  function SumEntries(entries: seq<Entry>): real {
    if entries == [] then 0.0 else SumEntries(entries[..|entries| - 1]) + entries[|entries| - 1].amount
  }

  function SumTaxes(taxes: seq<Money>): real {
    if taxes == [] then 0.0 else SumTaxes(taxes[..|taxes| - 1]) + taxes[|taxes| - 1].amount
  }

  /** Line subtotals plus taxes. */
  function SumLines(lines: seq<InvoiceLine>): real {
    if lines == [] then 0.0
    else
      var last := lines[|lines| - 1];
      SumLines(lines[..|lines| - 1]) + last.subtotal.amount + SumTaxes(last.taxes)
  }

  function Negative(x: real): real {
    if x < 0.0 then x else 0.0
  }

  function NegativeTaxes(taxes: seq<Money>): real {
    if taxes == [] then 0.0 else NegativeTaxes(taxes[..|taxes| - 1]) + Negative(taxes[|taxes| - 1].amount)
  }

  /** Negative subtotals and taxes: discounts and credits, which the absolute value turns into charges. */
  function NegativeIncome(lines: seq<InvoiceLine>): real {
    if lines == [] then 0.0
    else
      var last := lines[|lines| - 1];
      NegativeIncome(lines[..|lines| - 1]) + Negative(last.subtotal.amount) + NegativeTaxes(last.taxes)
  }

  lemma {:induction false} SumEntriesConcat(a: seq<Entry>, b: seq<Entry>)
    ensures SumEntries(a + b) == SumEntries(a) + SumEntries(b)
  {
    if b == [] {
      assert a + b == a;
    } else {
      var n := |b| - 1;
      SumEntriesConcat(a, b[..n]);
      assert (a + b)[..|a| + n] == a + b[..n];
    }
  }

  lemma {:induction false} TaxEntriesSum(taxes: seq<Money>)
    ensures SumEntries(TaxEntries(taxes)) == SumTaxes(taxes) - 2.0 * NegativeTaxes(taxes)
  {
    if taxes != [] {
      var n := |taxes| - 1;
      TaxEntriesSum(taxes[..n]);
      assert TaxEntries(taxes)[..n] == TaxEntries(taxes[..n]);
    }
  }

  lemma SumEntriesPrepend(e: Entry, rest: seq<Entry>)
    ensures SumEntries([e] + rest) == e.amount + SumEntries(rest)
  {
    assert [e][..0] == [];
    SumEntriesConcat([e], rest);
  }

  lemma LineEntriesSum(l: InvoiceLine, names: map<Id, string>)
    requires LineResolves(l, names)
    ensures SumEntries(LineEntries(l, names)) == l.subtotal.amount + SumTaxes(l.taxes)
                                               - 2.0 * (Negative(l.subtotal.amount) + NegativeTaxes(l.taxes))
  {
    TaxEntriesSum(l.taxes);
    SumEntriesPrepend(Entry(SalesLedger(l, names), Abs(l.subtotal.amount), false), TaxEntries(l.taxes));
  }

  lemma {:induction false} IncomeSum(lines: seq<InvoiceLine>, names: map<Id, string>)
    requires LinesResolve(lines, names)
    ensures SumEntries(IncomeEntries(lines, names)) == SumLines(lines) - 2.0 * NegativeIncome(lines)
  {
    if lines != [] {
      var n := |lines| - 1;
      IncomeSum(lines[..n], names);
      LineEntriesSum(lines[n], names);
      SumEntriesConcat(IncomeEntries(lines[..n], names), LineEntries(lines[n], names));
    }
  }

  /**
   What any sales voucher sums to. The canonical validators check currencies only, so nothing is assumed about
   the signs of the amounts or about the invoice adding up.
   */
  lemma SalesVoucherSum(inv: Invoice, names: map<Id, string>)
    requires Resolves(inv, names)
    ensures SumEntries(VoucherEntries(inv, names))
         == SumLines(inv.lines) - inv.grandTotal.amount
          - 2.0 * NegativeIncome(inv.lines) + 2.0 * Negative(inv.grandTotal.amount)
  {
    IncomeSum(inv.lines, names);
    SumEntriesPrepend(Entry(names[inv.client], -Abs(inv.grandTotal.amount), true), IncomeEntries(inv.lines, names));
  }

  predicate AddsUp(inv: Invoice) {
    SumLines(inv.lines) == inv.grandTotal.amount
  }

  predicate NonNegativeLine(l: InvoiceLine) {
    l.subtotal.amount >= 0.0 && forall i :: 0 <= i < |l.taxes| ==> l.taxes[i].amount >= 0.0
  }

  predicate NonNegativeInvoice(inv: Invoice) {
    inv.grandTotal.amount >= 0.0 && forall i :: 0 <= i < |inv.lines| ==> NonNegativeLine(inv.lines[i])
  }

  lemma {:induction false} NoNegativeTaxes(taxes: seq<Money>)
    ensures NegativeTaxes(taxes) <= 0.0
    ensures NegativeTaxes(taxes) == 0.0 <==> forall i :: 0 <= i < |taxes| ==> taxes[i].amount >= 0.0
  {
    if taxes != [] {
      var n := |taxes| - 1;
      NoNegativeTaxes(taxes[..n]);
      assert forall i :: 0 <= i < n ==> taxes[..n][i] == taxes[i];
    }
  }

  lemma {:induction false} NoNegativeIncome(lines: seq<InvoiceLine>)
    ensures NegativeIncome(lines) <= 0.0
    ensures NegativeIncome(lines) == 0.0 <==> forall i :: 0 <= i < |lines| ==> NonNegativeLine(lines[i])
  {
    if lines != [] {
      var n := |lines| - 1;
      NoNegativeIncome(lines[..n]);
      NoNegativeTaxes(lines[n].taxes);
      assert forall i :: 0 <= i < n ==> lines[..n][i] == lines[i];
    }
  }

  predicate NonPositiveLine(l: InvoiceLine) {
    l.subtotal.amount <= 0.0 && forall i :: 0 <= i < |l.taxes| ==> l.taxes[i].amount <= 0.0
  }

  lemma {:induction false} OnlyNegativeTaxes(taxes: seq<Money>)
    ensures NegativeTaxes(taxes) <= SumTaxes(taxes)
    ensures NegativeTaxes(taxes) == SumTaxes(taxes) <==> forall i :: 0 <= i < |taxes| ==> taxes[i].amount <= 0.0
  {
    if taxes != [] {
      var n := |taxes| - 1;
      OnlyNegativeTaxes(taxes[..n]);
      assert forall i :: 0 <= i < n ==> taxes[..n][i] == taxes[i];
    }
  }

  lemma {:induction false} OnlyNegativeIncome(lines: seq<InvoiceLine>)
    ensures NegativeIncome(lines) <= SumLines(lines)
    ensures NegativeIncome(lines) == SumLines(lines) <==> forall i :: 0 <= i < |lines| ==> NonPositiveLine(lines[i])
  {
    if lines != [] {
      var n := |lines| - 1;
      OnlyNegativeIncome(lines[..n]);
      OnlyNegativeTaxes(lines[n].taxes);
      assert forall i :: 0 <= i < n ==> lines[..n][i] == lines[i];
    }
  }

  /**
   The voucher of an invoice that adds up balances exactly when its negative subtotals and taxes total the
   negative part of its grand total: no negative amount when the grand total is zero or more, no positive one when
   it is negative. A non-negative invoice balances exactly when it adds up.
   */
  lemma SalesVoucherBalancesIff(inv: Invoice, names: map<Id, string>)
    requires Resolves(inv, names)
    ensures AddsUp(inv) ==>
              (SumEntries(VoucherEntries(inv, names)) == 0.0 <==>
               NegativeIncome(inv.lines) == Negative(inv.grandTotal.amount))
    ensures AddsUp(inv) && inv.grandTotal.amount >= 0.0 ==>
              (SumEntries(VoucherEntries(inv, names)) == 0.0 <==> NonNegativeInvoice(inv))
    ensures AddsUp(inv) && inv.grandTotal.amount < 0.0 ==>
              (SumEntries(VoucherEntries(inv, names)) == 0.0 <==>
               forall i :: 0 <= i < |inv.lines| ==> NonPositiveLine(inv.lines[i]))
    ensures NonNegativeInvoice(inv) ==> (SumEntries(VoucherEntries(inv, names)) == 0.0 <==> AddsUp(inv))
  {
    SalesVoucherSum(inv, names);
    NoNegativeIncome(inv.lines);
    OnlyNegativeIncome(inv.lines);
  }

  /** An invoice of 100 less a discount of 10 adds up to 90; its voucher charges 110 against 90. */
  lemma DiscountUnbalancesVoucher(client: Id, names: map<Id, string>, currency: string)
    requires LedgerName(names, client).Ok?
    ensures var inv := Invoice(client, Money(90.0, currency),
                               [InvoiceLine(Money(100.0, currency), [], None),
                                InvoiceLine(Money(-10.0, currency), [], None)]);
            Resolves(inv, names) && AddsUp(inv) && SumEntries(VoucherEntries(inv, names)) == 20.0
  {
    var lines := [InvoiceLine(Money(100.0, currency), [], None), InvoiceLine(Money(-10.0, currency), [], None)];
    var inv := Invoice(client, Money(90.0, currency), lines);
    assert lines[..1] == [lines[0]] && [lines[0]][..0] == [];
    assert SumTaxes([]) == NegativeTaxes([]) == SumLines([]) == NegativeIncome([]) == 0.0;
    assert SumLines([lines[0]]) == 100.0;
    assert NegativeIncome([lines[0]]) == 0.0;
    assert SumLines(lines) == 90.0;
    assert NegativeIncome(lines) == -10.0;
    SalesVoucherSum(inv, names);
  }

  /** What an income row should carry: the amount as a credit. */
  predicate CreditsAmount(e: Entry, amount: real) {
    e.amount == amount && !e.deemedPositive
  }

  /** What the debtor row should carry: the grand total as a debit. */
  predicate DebitsAmount(e: Entry, amount: real) {
    e.amount == -amount && e.deemedPositive
  }

  lemma TaxRowsMeanTaxes(taxes: seq<Money>)
    ensures (forall i :: 0 <= i < |taxes| ==> CreditsAmount(TaxEntries(taxes)[i], taxes[i].amount))
       <==> (forall i :: 0 <= i < |taxes| ==> taxes[i].amount >= 0.0)
  {
    forall i | 0 <= i < |taxes|
      ensures CreditsAmount(TaxEntries(taxes)[i], taxes[i].amount) <==> taxes[i].amount >= 0.0
    {
    }
  }

  /** The rows of one invoice line say what the line says: its subtotal and each of its taxes, as credits. */
  predicate RowsMeanInvoiceLine(l: InvoiceLine, names: map<Id, string>)
    requires LineResolves(l, names)
  {
    var rows := LineEntries(l, names);
    && CreditsAmount(rows[0], l.subtotal.amount)
    && forall i :: 0 <= i < |l.taxes| ==> CreditsAmount(rows[1..][i], l.taxes[i].amount)
  }

  /**
   Row by row, the voucher says what the invoice says exactly for non-negative invoices: a credit note is posted as
   a sale.
   */
  lemma InvoiceRowsMeanInvoice(inv: Invoice, names: map<Id, string>)
    requires Resolves(inv, names)
    ensures (&& DebitsAmount(VoucherEntries(inv, names)[0], inv.grandTotal.amount)
             && forall i :: 0 <= i < |inv.lines| ==> RowsMeanInvoiceLine(inv.lines[i], names))
       <==> NonNegativeInvoice(inv)
  {
    forall i | 0 <= i < |inv.lines|
      ensures RowsMeanInvoiceLine(inv.lines[i], names) <==> NonNegativeLine(inv.lines[i])
    {
      var l := inv.lines[i];
      assert LineEntries(l, names)[1..] == TaxEntries(l.taxes);
      TaxRowsMeanTaxes(l.taxes);
    }
  }

  // ---- which ledger receives what ----

  /** An account has a ledger exactly when it has a name with something but white space in it, and that is the name. */
  lemma LedgerNameIff(names: map<Id, string>, account: Id)
    ensures LedgerName(names, account).Ok? <==>
              account in names && exists i :: 0 <= i < |names[account]| && !IsSpace(names[account][i])
    ensures LedgerName(names, account).Ok? ==> LedgerName(names, account).value == names[account]
    ensures account !in names ==> LedgerName(names, account) == Err(UnknownAccount(account))
  {
    if account in names {
      StripsToNothingIff(names[account]);
    }
  }

  /** What a voucher puts on a ledger. */
  function SumOn(entries: seq<Entry>, ledger: string): real {
    if entries == [] then 0.0
    else
      var last := entries[|entries| - 1];
      SumOn(entries[..|entries| - 1], ledger) + if last.ledger == ledger then last.amount else 0.0
  }

  /** Subtotals of the lines that name a sales ledger, or name none if it is the default. */
  function SubtotalsOn(lines: seq<InvoiceLine>, names: map<Id, string>, ledger: string): real {
    if lines == [] then 0.0
    else
      var last := lines[|lines| - 1];
      var named :=
        if last.salesLedger.Some? then last.salesLedger.value in names && names[last.salesLedger.value] == ledger
        else ledger == "Sales";
      SubtotalsOn(lines[..|lines| - 1], names, ledger) + if named then Abs(last.subtotal.amount) else 0.0
  }

  function SumAbsTaxes(taxes: seq<Money>): real {
    if taxes == [] then 0.0 else SumAbsTaxes(taxes[..|taxes| - 1]) + Abs(taxes[|taxes| - 1].amount)
  }

  function AllTaxes(lines: seq<InvoiceLine>): real {
    if lines == [] then 0.0 else AllTaxes(lines[..|lines| - 1]) + SumAbsTaxes(lines[|lines| - 1].taxes)
  }

  lemma {:induction false} SumOnConcat(a: seq<Entry>, b: seq<Entry>, ledger: string)
    ensures SumOn(a + b, ledger) == SumOn(a, ledger) + SumOn(b, ledger)
  {
    if b == [] {
      assert a + b == a;
    } else {
      var n := |b| - 1;
      SumOnConcat(a, b[..n], ledger);
      assert (a + b)[..|a| + n] == a + b[..n];
    }
  }

  lemma SumOnPrepend(e: Entry, rest: seq<Entry>, ledger: string)
    ensures SumOn([e] + rest, ledger) == (if e.ledger == ledger then e.amount else 0.0) + SumOn(rest, ledger)
  {
    assert [e][..0] == [];
    SumOnConcat([e], rest, ledger);
  }

  lemma {:induction false} TaxesOnLedger(taxes: seq<Money>, ledger: string)
    ensures SumOn(TaxEntries(taxes), ledger) == if ledger == "Duties & Taxes" then SumAbsTaxes(taxes) else 0.0
  {
    if taxes != [] {
      var n := |taxes| - 1;
      TaxesOnLedger(taxes[..n], ledger);
      assert TaxEntries(taxes)[..n] == TaxEntries(taxes[..n]);
    }
  }

  lemma {:induction false} IncomeOnLedger(lines: seq<InvoiceLine>, names: map<Id, string>, ledger: string)
    requires LinesResolve(lines, names)
    ensures SumOn(IncomeEntries(lines, names), ledger) == SubtotalsOn(lines, names, ledger)
          + if ledger == "Duties & Taxes" then AllTaxes(lines) else 0.0
  {
    if lines != [] {
      var n := |lines| - 1;
      var l := lines[n];
      IncomeOnLedger(lines[..n], names, ledger);
      TaxesOnLedger(l.taxes, ledger);
      SumOnPrepend(Entry(SalesLedger(l, names), Abs(l.subtotal.amount), false), TaxEntries(l.taxes), ledger);
      SumOnConcat(IncomeEntries(lines[..n], names), LineEntries(l, names), ledger);
    }
  }

  /**
   What each ledger receives, for every invoice and every ledger name: the grand total as a debit on the client's, the
   subtotals on the ledgers their lines name ("Sales" where they name none), all taxes on "Duties & Taxes".
   */
  lemma LedgerTotals(inv: Invoice, names: map<Id, string>, ledger: string)
    requires Resolves(inv, names)
    ensures SumOn(VoucherEntries(inv, names), ledger)
         == (if names[inv.client] == ledger then -Abs(inv.grandTotal.amount) else 0.0)
          + SubtotalsOn(inv.lines, names, ledger)
          + (if ledger == "Duties & Taxes" then AllTaxes(inv.lines) else 0.0)
  {
    IncomeOnLedger(inv.lines, names, ledger);
    SumOnPrepend(Entry(names[inv.client], -Abs(inv.grandTotal.amount), true), IncomeEntries(inv.lines, names), ledger);
  }

  /** What the lines of an account put on a ledger, with Tally's signs. */
  function SumTallyOn(lines: seq<JournalLine>, names: map<Id, string>, ledger: string): real
    requires ValidLines(lines)
  {
    if lines == [] then 0.0
    else
      var last := lines[|lines| - 1];
      SumTallyOn(lines[..|lines| - 1], names, ledger)
      + if last.account in names && names[last.account] == ledger then TallyAmount(last) else 0.0
  }

  /** Journal vouchers: each ledger receives the amounts of the lines whose account has its name. */
  lemma {:induction false} JournalLedgerTotals(
      lines: seq<JournalLine>, entries: seq<Entry>, names: map<Id, string>, ledger: string)
    requires ValidLines(lines) && |entries| == |lines|
    requires forall i :: 0 <= i < |lines| ==>
               LineToEntry(lines[i], names).Ok? && entries[i] == LineToEntry(lines[i], names).value
    ensures SumOn(entries, ledger) == SumTallyOn(lines, names, ledger)
  {
    if lines != [] {
      var n := |lines| - 1;
      JournalLedgerTotals(lines[..n], entries[..n], names, ledger);
    }
  }

  // ---- the order of a sales voucher ----

  /** Rows of the lines before line `i`: one per line and one per tax. */
  function RowsBefore(lines: seq<InvoiceLine>, i: nat): nat
    requires i <= |lines|
  {
    if i == 0 then 0 else RowsBefore(lines, i - 1) + 1 + |lines[i - 1].taxes|
  }

  lemma {:induction false} RowsBeforePrefix(lines: seq<InvoiceLine>, n: nat, i: nat)
    requires i <= n <= |lines|
    ensures RowsBefore(lines[..n], i) == RowsBefore(lines, i)
  {
    if i > 0 {
      RowsBeforePrefix(lines, n, i - 1);
    }
  }

  lemma {:induction false} IncomeLength(lines: seq<InvoiceLine>, names: map<Id, string>)
    requires LinesResolve(lines, names)
    ensures |IncomeEntries(lines, names)| == RowsBefore(lines, |lines|)
  {
    if lines != [] {
      var n := |lines| - 1;
      IncomeLength(lines[..n], names);
      RowsBeforePrefix(lines, n, n);
    }
  }

  lemma SliceOfFirst(a: seq<Entry>, b: seq<Entry>, lo: nat, hi: nat)
    requires lo <= hi <= |a|
    ensures (a + b)[lo..hi] == a[lo..hi]
  {
  }

  /** The rows of line `i` stand together, after those of the lines before it. */
  lemma {:induction false} IncomePlaces(lines: seq<InvoiceLine>, names: map<Id, string>, i: nat)
    requires LinesResolve(lines, names) && i < |lines|
    ensures var rows, at := IncomeEntries(lines, names), RowsBefore(lines, i);
            && at + 1 + |lines[i].taxes| <= |rows|
            && rows[at..at + 1 + |lines[i].taxes|] == LineEntries(lines[i], names)
  {
    var n := |lines| - 1;
    var before, last := IncomeEntries(lines[..n], names), LineEntries(lines[n], names);
    IncomeLength(lines[..n], names);
    RowsBeforePrefix(lines, n, n);
    if i < n {
      IncomePlaces(lines[..n], names, i);
      RowsBeforePrefix(lines, n, i);
      SliceOfFirst(before, last, RowsBefore(lines, i), RowsBefore(lines, i) + 1 + |lines[i].taxes|);
    } else {
      SliceOfSecond(before, last);
    }
  }

  lemma SliceOfSecond(a: seq<Entry>, b: seq<Entry>)
    ensures (a + b)[|a|..|a| + |b|] == b
  {
  }

  /** From row `at` on: the subtotal on its sales ledger, then each tax, all as credits. */
  predicate HoldsLine(rows: seq<Entry>, at: nat, l: InvoiceLine, names: map<Id, string>) {
    && at + |l.taxes| < |rows| && LineResolves(l, names)
    && rows[at] == Entry(if l.salesLedger.Some? then names[l.salesLedger.value] else "Sales",
                         Abs(l.subtotal.amount), false)
    && forall k :: 0 <= k < |l.taxes| ==>
         rows[at + 1 + k] == Entry("Duties & Taxes", Abs(l.taxes[k].amount), false)
  }

  lemma BlockHoldsLine(income: seq<Entry>, at: nat, l: InvoiceLine, names: map<Id, string>)
    requires LineResolves(l, names) && at + 1 + |l.taxes| <= |income|
    requires income[at..at + 1 + |l.taxes|] == LineEntries(l, names)
    ensures HoldsLine(income, at, l, names)
  {
    var block := income[at..at + 1 + |l.taxes|];
    assert income[at] == block[0];
    forall k | 0 <= k < |l.taxes|
      ensures income[at + 1 + k] == TaxEntries(l.taxes)[k]
    {
      assert income[at + 1 + k] == block[1 + k];
    }
  }

  lemma AfterDebtor(debtor: Entry, income: seq<Entry>, at: nat, l: InvoiceLine, names: map<Id, string>)
    requires HoldsLine(income, at, l, names)
    ensures HoldsLine([debtor] + income, 1 + at, l, names)
  {
    var rows := [debtor] + income;
    assert rows[1 + at] == income[at];
    forall k | 0 <= k < |l.taxes|
      ensures rows[1 + at + 1 + k] == Entry("Duties & Taxes", Abs(l.taxes[k].amount), false)
    {
      assert rows[1 + at + 1 + k] == income[at + 1 + k];
    }
  }

  /** After the debtor's row each line has its subtotal row and then its tax rows, in the order of the invoice. */
  lemma RowsInInvoiceOrder(inv: Invoice, names: map<Id, string>, i: nat)
    requires Resolves(inv, names) && i < |inv.lines|
    ensures var rows := VoucherEntries(inv, names);
            && |rows| == 1 + RowsBefore(inv.lines, |inv.lines|)
            && rows[0] == Entry(names[inv.client], -Abs(inv.grandTotal.amount), true)
            && HoldsLine(rows, 1 + RowsBefore(inv.lines, i), inv.lines[i], names)
  {
    var debtor := Entry(names[inv.client], -Abs(inv.grandTotal.amount), true);
    var income, at := IncomeEntries(inv.lines, names), RowsBefore(inv.lines, i);
    IncomePlaces(inv.lines, names, i);
    IncomeLength(inv.lines, names);
    BlockHoldsLine(income, at, inv.lines[i], names);
    AfterDebtor(debtor, income, at, inv.lines[i], names);
  }
}
