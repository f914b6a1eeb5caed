/** The double-entry write helper: quantised, balanced postings, and the trial balance over runs of them. */
module Ledger {
  import opened Wrappers

  // ---- two-place decimals ----

  /** `Decimal.quantize("0.01")` in hundredths: round half to even. */
  function Cents(x: real): int {
    var y := 100.0 * x;
    var f := y.Floor;
    var rest := y - f as real;
    if rest < 0.5 || (rest == 0.5 && f % 2 == 0) then f else f + 1
  }

  function Value(cents: int): real {
    cents as real / 100.0
  }

  /** Quantising moves a value by at most half a hundredth. */
  lemma CentsNear(x: real)
    ensures -0.005 <= Value(Cents(x)) - x <= 0.005
  {
  }

  /** A quantised value: within half a hundredth, and even where two hundredths are equally near. */
  predicate Rounds(cents: int, x: real) {
    && -0.005 <= Value(cents) - x <= 0.005
    && (Value(cents) - x == 0.005 || Value(cents) - x == -0.005 ==> cents % 2 == 0)
  }

  /** Quantising gives the one number of hundredths that rounds the value. */
  lemma CentsIff(x: real, cents: int)
    ensures Cents(x) == cents <==> Rounds(cents, x)
  {
    CentsRound(x);
    if Rounds(cents, x) {
      RoundsOnce(x, cents, Cents(x));
    }
  }

  lemma CentsRound(x: real)
    ensures Rounds(Cents(x), x)
  {
  }

  lemma RoundsOnce(x: real, a: int, b: int)
    requires Rounds(a, x) && Rounds(b, x)
    ensures a == b
  {
    assert -0.01 <= Value(a) - Value(b) <= 0.01;
    assert -1.0 <= (a - b) as real <= 1.0;
  }

  // ---- posting ----

  type Id = string

  datatype Line = Line(account: Id, debit: real, credit: real, memo: Option<string>)

  /** What all rows of one entry share; `postedAt` is the caller's time or the clock's. */
  datatype Stamp = Stamp(tenant: Id, entry: Id, postedAt: int, source: Option<string>)

  datatype Row = Row(stamp: Stamp, lineNo: nat, account: Id, debit: int, credit: int, memo: Option<string>)

  datatype PostingError = TooFewLines | NegativeSide | NotOneSided | Unbalanced

  /** Exactly one positive side after quantising, the other zero. */
  predicate OneSided(l: Line) {
    (Cents(l.debit) > 0 && Cents(l.credit) == 0) || (Cents(l.debit) == 0 && Cents(l.credit) > 0)
  }

  function SumDebits(lines: seq<Line>): int {
    if lines == [] then 0 else SumDebits(lines[..|lines| - 1]) + Cents(lines[|lines| - 1].debit)
  }

  function SumCredits(lines: seq<Line>): int {
    if lines == [] then 0 else SumCredits(lines[..|lines| - 1]) + Cents(lines[|lines| - 1].credit)
  }

  predicate Postable(lines: seq<Line>) {
    && |lines| >= 2
    && (forall i :: 0 <= i < |lines| ==> OneSided(lines[i]))
    && SumDebits(lines) == SumCredits(lines)
  }

  function RowOf(stamp: Stamp, lines: seq<Line>, i: nat): Row
    requires i < |lines|
  {
    Row(stamp, i + 1, lines[i].account, Cents(lines[i].debit), Cents(lines[i].credit), lines[i].memo)
  }

  function RowsOf(stamp: Stamp, lines: seq<Line>): (rows: seq<Row>)
    ensures |rows| == |lines|
  {
    seq(|lines|, i requires 0 <= i < |lines| => RowOf(stamp, lines, i))
  }

  /** Every line before `i` is fine and line `i` is not; a negative side is reported before a two-sided line. */
  predicate FirstBadLine(lines: seq<Line>, i: int, negative: bool)
    requires 0 <= i < |lines|
  {
    && (forall j :: 0 <= j < i ==> OneSided(lines[j]))
    && !OneSided(lines[i])
    && (negative <==> Cents(lines[i].debit) < 0 || Cents(lines[i].credit) < 0)
  }

  /** Row `i` books line `i`: its account and memo, its number, the caller's stamp, both sides to the hundredth. */
  predicate Books(rows: seq<Row>, lines: seq<Line>, stamp: Stamp, i: int)
    requires 0 <= i < |lines|
  {
    && i < |rows|
    && rows[i].account == lines[i].account && rows[i].memo == lines[i].memo
    && rows[i].lineNo == i + 1 && rows[i].stamp == stamp
    && Rounds(rows[i].debit, lines[i].debit) && Rounds(rows[i].credit, lines[i].credit)
  }

  lemma RowsBook(stamp: Stamp, lines: seq<Line>)
    ensures forall i :: 0 <= i < |lines| ==> Books(RowsOf(stamp, lines), lines, stamp, i)
  {
    forall i | 0 <= i < |lines|
      ensures Books(RowsOf(stamp, lines), lines, stamp, i)
    {
      CentsRound(lines[i].debit);
      CentsRound(lines[i].credit);
    }
  }

  method BuildJournalEntry(stamp: Stamp, lines: seq<Line>) returns (r: Result<seq<Row>, PostingError>)
    ensures r.Ok? <==> Postable(lines)
    ensures r.Ok? ==> r.value == RowsOf(stamp, lines)
    ensures r.Ok? ==> forall i :: 0 <= i < |lines| ==> Books(r.value, lines, stamp, i)
    ensures r == Err(TooFewLines) <==> |lines| < 2
    ensures r == Err(Unbalanced) <==>
              && |lines| >= 2 && (forall i :: 0 <= i < |lines| ==> OneSided(lines[i]))
              && SumDebits(lines) != SumCredits(lines)
    ensures r == Err(NegativeSide) ==> exists i :: 0 <= i < |lines| && FirstBadLine(lines, i, true)
    ensures r == Err(NotOneSided) ==> exists i :: 0 <= i < |lines| && FirstBadLine(lines, i, false)
  {
    if |lines| < 2 {
      return Err(TooFewLines);
    }
    var rows: seq<Row> := [];
    var totalDebit, totalCredit := 0, 0;
    for i := 0 to |lines|
      invariant rows == RowsOf(stamp, lines)[..i]
      invariant totalDebit == SumDebits(lines[..i]) && totalCredit == SumCredits(lines[..i])
      invariant forall j :: 0 <= j < i ==> OneSided(lines[j])
    {
      var debit, credit := Cents(lines[i].debit), Cents(lines[i].credit);
      if debit < 0 || credit < 0 {
        assert FirstBadLine(lines, i, true);
        return Err(NegativeSide);
      }
      if (debit > 0) == (credit > 0) {
        assert FirstBadLine(lines, i, false);
        return Err(NotOneSided);
      }
      assert lines[..i + 1][..i] == lines[..i];
      totalDebit := totalDebit + debit;
      totalCredit := totalCredit + credit;
      rows := rows + [Row(stamp, i + 1, lines[i].account, debit, credit, lines[i].memo)];
    }
    assert lines[..|lines|] == lines;
    if totalDebit != totalCredit {
      return Err(Unbalanced);
    }
    RowsBook(stamp, lines);
    return Ok(rows);
  }

  // ---- rounding ----

  function RawDebits(lines: seq<Line>): real {
    if lines == [] then 0.0 else RawDebits(lines[..|lines| - 1]) + lines[|lines| - 1].debit
  }

  function RawCredits(lines: seq<Line>): real {
    if lines == [] then 0.0 else RawCredits(lines[..|lines| - 1]) + lines[|lines| - 1].credit
  }

  lemma {:induction false} RawNearCents(lines: seq<Line>)
    ensures var raw := RawDebits(lines) - RawCredits(lines);
            var booked := Value(SumDebits(lines) - SumCredits(lines));
            -0.01 * |lines| as real <= raw - booked <= 0.01 * |lines| as real
  {
    if lines != [] {
      var n := |lines| - 1;
      RawNearCents(lines[..n]);
      CentsNear(lines[n].debit);
      CentsNear(lines[n].credit);
    }
  }

  /** An accepted entry of n lines has raw totals within 0.01 n of each other. */
  lemma AcceptedNearlyBalanced(lines: seq<Line>)
    requires Postable(lines)
    ensures -0.01 * |lines| as real <= RawDebits(lines) - RawCredits(lines) <= 0.01 * |lines| as real
  {
    RawNearCents(lines);
  }

  predicate TwoPlaces(x: real) {
    Value(Cents(x)) == x
  }

  /** The line rule on raw values. */
  predicate RawOneSided(l: Line) {
    (l.debit > 0.0 && l.credit == 0.0) || (l.debit == 0.0 && l.credit > 0.0)
  }

  lemma {:induction false} ExactSums(lines: seq<Line>)
    requires forall i :: 0 <= i < |lines| ==> TwoPlaces(lines[i].debit) && TwoPlaces(lines[i].credit)
    ensures RawDebits(lines) == Value(SumDebits(lines)) && RawCredits(lines) == Value(SumCredits(lines))
  {
    if lines != [] {
      ExactSums(lines[..|lines| - 1]);
    }
  }

  /** Two-place inputs are accepted exactly when there are two lines, each one-sided, and debits equal credits. */
  lemma TwoPlaceInputs(lines: seq<Line>)
    requires forall i :: 0 <= i < |lines| ==> TwoPlaces(lines[i].debit) && TwoPlaces(lines[i].credit)
    ensures Postable(lines) <==>
              && |lines| >= 2
              && (forall i :: 0 <= i < |lines| ==> RawOneSided(lines[i]))
              && RawDebits(lines) == RawCredits(lines)
  {
    ExactSums(lines);
    forall i | 0 <= i < |lines|
      ensures OneSided(lines[i]) <==> RawOneSided(lines[i])
    {
      assert lines[i].debit == Value(Cents(lines[i].debit));
      assert lines[i].credit == Value(Cents(lines[i].credit));
    }
  }

  // ---- runs of postings ----

  datatype Posting = Posting(stamp: Stamp, lines: seq<Line>)

  /** The journal after a run of postings, of which the unacceptable ones leave no rows. */
  function Journal(postings: seq<Posting>): seq<Row> {
    if postings == [] then []
    else
      var last := postings[|postings| - 1];
      Journal(postings[..|postings| - 1]) + if Postable(last.lines) then RowsOf(last.stamp, last.lines) else []
  }

  /** Net of the rows a selection of (tenant, entry) picks. */
  function Net(rows: seq<Row>, pick: (Id, Id) -> bool): int {
    if rows == [] then 0
    else
      var last := rows[|rows| - 1];
      Net(rows[..|rows| - 1], pick) + if pick(last.stamp.tenant, last.stamp.entry) then last.debit - last.credit else 0
  }

  lemma {:induction false} NetConcat(a: seq<Row>, b: seq<Row>, pick: (Id, Id) -> bool)
    ensures Net(a + b, pick) == Net(a, pick) + Net(b, pick)
  {
    if b == [] {
      assert a + b == a;
    } else {
      var n := |b| - 1;
      NetConcat(a, b[..n], pick);
      assert (a + b)[..|a| + n] == a + b[..n];
    }
  }

  lemma {:induction false} NetOfEntry(stamp: Stamp, lines: seq<Line>, pick: (Id, Id) -> bool)
    ensures Net(RowsOf(stamp, lines), pick)
         == if pick(stamp.tenant, stamp.entry) then SumDebits(lines) - SumCredits(lines) else 0
  {
    if lines != [] {
      var n := |lines| - 1;
      NetOfEntry(stamp, lines[..n], pick);
      assert RowsOf(stamp, lines)[..n] == RowsOf(stamp, lines[..n]);
    }
  }

  /** After any run of postings, debits equal credits for every tenant, every entry, and every selection of them. */
  lemma {:induction false} TrialBalance(postings: seq<Posting>, pick: (Id, Id) -> bool)
    ensures Net(Journal(postings), pick) == 0
  {
    if postings != [] {
      var n := |postings| - 1;
      TrialBalance(postings[..n], pick);
      NetOfEntry(postings[n].stamp, postings[n].lines, pick);
      NetConcat(Journal(postings[..n]), RowsOf(postings[n].stamp, postings[n].lines), pick);
      NetConcat(Journal(postings[..n]), [], pick);
    }
  }

  function AccountNet(rows: seq<Row>, tenant: Id, account: Id): int {
    if rows == [] then 0
    else
      var last := rows[|rows| - 1];
      AccountNet(rows[..|rows| - 1], tenant, account)
      + if last.stamp.tenant == tenant && last.account == account then last.debit - last.credit else 0
  }

  function SumAccountNets(rows: seq<Row>, tenant: Id, accounts: seq<Id>): int {
    if accounts == [] then 0
    else SumAccountNets(rows, tenant, accounts[..|accounts| - 1]) + AccountNet(rows, tenant, accounts[|accounts| - 1])
  }

  /** A chart of accounts: no account twice, and none of the tenant's rows outside it. */
  predicate Chart(rows: seq<Row>, tenant: Id, accounts: seq<Id>) {
    && (forall i, j :: 0 <= i < j < |accounts| ==> accounts[i] != accounts[j])
    && (forall i :: 0 <= i < |rows| && rows[i].stamp.tenant == tenant ==> rows[i].account in accounts)
  }

  lemma AccountNetAppend(rows: seq<Row>, row: Row, tenant: Id, account: Id)
    ensures AccountNet(rows + [row], tenant, account) == AccountNet(rows, tenant, account)
          + if row.stamp.tenant == tenant && row.account == account then row.debit - row.credit else 0
  {
    assert (rows + [row])[..|rows|] == rows;
  }

  lemma {:induction false} OneMoreRow(rows: seq<Row>, row: Row, tenant: Id, accounts: seq<Id>)
    requires forall i, j :: 0 <= i < j < |accounts| ==> accounts[i] != accounts[j]
    ensures SumAccountNets(rows + [row], tenant, accounts) == SumAccountNets(rows, tenant, accounts)
          + if row.stamp.tenant == tenant && row.account in accounts then row.debit - row.credit else 0
  {
    if accounts != [] {
      var n := |accounts| - 1;
      OneMoreRow(rows, row, tenant, accounts[..n]);
      AccountNetAppend(rows, row, tenant, accounts[n]);
      assert accounts == accounts[..n] + [accounts[n]];
    }
  }

  lemma {:induction false} NoRowsNoNets(tenant: Id, accounts: seq<Id>)
    ensures SumAccountNets([], tenant, accounts) == 0
  {
    if accounts != [] {
      NoRowsNoNets(tenant, accounts[..|accounts| - 1]);
    }
  }

  lemma {:induction false} AccountsPartitionRows(rows: seq<Row>, tenant: Id, accounts: seq<Id>)
    requires Chart(rows, tenant, accounts)
    ensures SumAccountNets(rows, tenant, accounts) == Net(rows, (t, _) => t == tenant)
  {
    if rows == [] {
      NoRowsNoNets(tenant, accounts);
    } else {
      var n := |rows| - 1;
      AccountsPartitionRows(rows[..n], tenant, accounts);
      OneMoreRow(rows[..n], rows[n], tenant, accounts);
      assert rows == rows[..n] + [rows[n]];
    }
  }

  /** A tenant's account balances sum to zero after any run of postings. */
  lemma AccountNetsSumToZero(postings: seq<Posting>, tenant: Id, accounts: seq<Id>)
    requires Chart(Journal(postings), tenant, accounts)
    ensures SumAccountNets(Journal(postings), tenant, accounts) == 0
  {
    AccountsPartitionRows(Journal(postings), tenant, accounts);
    TrialBalance(postings, (t, _) => t == tenant);
  }

  // ---- balances from the posted lines ----

  /** What the lines of one posting move on an account. */
  function PostedOn(lines: seq<Line>, account: Id): int {
    if lines == [] then 0
    else
      var last := lines[|lines| - 1];
      PostedOn(lines[..|lines| - 1], account)
      + if last.account == account then Cents(last.debit) - Cents(last.credit) else 0
  }

  /** What the accepted postings of a tenant move on an account. */
  function SumPosted(postings: seq<Posting>, tenant: Id, account: Id): int {
    if postings == [] then 0
    else
      var last := postings[|postings| - 1];
      SumPosted(postings[..|postings| - 1], tenant, account)
      + if last.stamp.tenant == tenant && Postable(last.lines) then PostedOn(last.lines, account) else 0
  }

  lemma {:induction false} AccountNetConcat(a: seq<Row>, b: seq<Row>, tenant: Id, account: Id)
    ensures AccountNet(a + b, tenant, account) == AccountNet(a, tenant, account) + AccountNet(b, tenant, account)
  {
    if b == [] {
      assert a + b == a;
    } else {
      var n := |b| - 1;
      AccountNetConcat(a, b[..n], tenant, account);
      assert (a + b)[..|a| + n] == a + b[..n];
    }
  }

  lemma {:induction false} AccountNetOfEntry(stamp: Stamp, lines: seq<Line>, tenant: Id, account: Id)
    ensures AccountNet(RowsOf(stamp, lines), tenant, account)
         == if stamp.tenant == tenant then PostedOn(lines, account) else 0
  {
    if lines != [] {
      var n := |lines| - 1;
      AccountNetOfEntry(stamp, lines[..n], tenant, account);
      assert RowsOf(stamp, lines)[..n] == RowsOf(stamp, lines[..n]);
    }
  }

  /** The balance of every account is what the accepted postings of its tenant moved on it, line by line. */
  lemma {:induction false} BalancesComeFromLines(postings: seq<Posting>, tenant: Id, account: Id)
    ensures AccountNet(Journal(postings), tenant, account) == SumPosted(postings, tenant, account)
  {
    if postings != [] {
      var n := |postings| - 1;
      var last, before := postings[n], Journal(postings[..n]);
      BalancesComeFromLines(postings[..n], tenant, account);
      if Postable(last.lines) {
        AccountNetConcat(before, RowsOf(last.stamp, last.lines), tenant, account);
        AccountNetOfEntry(last.stamp, last.lines, tenant, account);
      } else {
        assert Journal(postings) == before;
      }
    }
  }
}
