/**
 Deterministic reconciliation of BSP report rows against internal tickets.

 The method `Reconcile` is the two-pass algorithm with its index, its set of matched keys and its six
 running figures. It is proved against `Expected`, which says for each row and each ticket on its own
 what has to come out.
 */
module Reconciliation {
  import opened Wrappers
  import opened Text
  import opened Calendar
  import opened Canonical
  import opened BspReport

  const AMOUNT_TOLERANCE := 1.0
  const CONFIDENCE_EXACT := 10_000
  const CONFIDENCE_DISCREPANCY := 8_000
  const CONFIDENCE_TENTATIVE := 5_000

  datatype Ticket = Ticket(id: string, number: string, issuingAirline: string, total: Money)

  datatype Outcome = Matched | UnmatchedExternal | UnmatchedInternal | Discrepancy | Tentative

  datatype Item = Item(
    outcome: Outcome,
    confidence: nat,
    externalRef: Option<string>,
    externalAmount: Option<Money>,
    externalDate: Option<Date>,
    internalRefs: seq<string>,
    internalAmount: Option<Money>,
    delta: Option<Money>)

  datatype Figures = Figures(
    matchedCount: nat,
    matchedAmount: Option<Money>,
    unmatchedExternalCount: nat,
    unmatchedInternalCount: nat,
    discrepancyCount: nat,
    tentativeCount: nat)

  // ---- keys ----

  datatype Key = Key(airline: string, digits: string)

  /** Airline and the last ten digits of the number, so that a carrier prefix and hyphens do not matter. */
  function NormalisedKey(number: string, airline: string): Key {
    var digits := OnlyDigits(number);
    Key(Upper(airline), if |digits| >= 10 then digits[|digits| - 10..] else digits)
  }

  function TicketKey(t: Ticket): Key {
    NormalisedKey(t.number, t.issuingAirline)
  }

  function RowKey(tx: BspTransaction): Key {
    NormalisedKey(tx.documentNumber, tx.airline)
  }

  // ---- what each row and each ticket has to become ----

  /** First ticket with the key, by linear scan. */
  function FirstWith(keys: seq<Key>, tickets: seq<Ticket>, key: Key): Option<Ticket>
    requires |keys| == |tickets|
  {
    if tickets == [] then None
    else if keys[0] == key then Some(tickets[0])
    else FirstWith(keys[1..], tickets[1..], key)
  }

  predicate WithinTolerance(a: real, b: real) {
    -AMOUNT_TOLERANCE <= a - b <= AMOUNT_TOLERANCE
  }

  /** The item a report row becomes, given the ticket its key finds; only sales are looked up. */
  function RowItem(tx: BspTransaction, found: Option<Ticket>): Item {
    var unmatched := Item(UnmatchedExternal, CONFIDENCE_EXACT, Some(tx.documentNumber), Some(tx.net),
                          Some(tx.issueDate), [], None, None);
    if tx.kind != Sale || found.None? then unmatched
    else
      var t := found.value;
      var met := unmatched.(internalRefs := [t.id], internalAmount := Some(t.total));
      if t.total.currency != tx.net.currency then
        met.(outcome := Tentative, confidence := CONFIDENCE_TENTATIVE)
      else if WithinTolerance(t.total.amount, tx.net.amount) then
        met.(outcome := Matched, delta := Some(Money(0.0, tx.net.currency)))
      else
        met.(outcome := Discrepancy, confidence := CONFIDENCE_DISCREPANCY,
             delta := Some(Money(tx.net.amount - t.total.amount, tx.net.currency)))
  }

  function LeftoverItem(t: Ticket): Item {
    Item(UnmatchedInternal, CONFIDENCE_EXACT, None, None, None, [t.id], Some(t.total), None)
  }

  // ---- figures over a list of items ----

  function CountOf(items: seq<Item>, o: Outcome): nat {
    if items == [] then 0
    else CountOf(items[..|items| - 1], o) + if items[|items| - 1].outcome == o then 1 else 0
  }

  /** Matched external money in the currency of the first matched item. */
  function MatchedMoney(items: seq<Item>): (m: Option<Money>) {
    if items == [] then None
    else
      var before, last := MatchedMoney(items[..|items| - 1]), items[|items| - 1];
      if last.outcome != Matched || last.externalAmount.None? then before
      else if before.None? then last.externalAmount
      else if before.value.currency == last.externalAmount.value.currency then
        Some(Money(before.value.amount + last.externalAmount.value.amount, before.value.currency))
      else before
  }

  function FiguresOf(items: seq<Item>): Figures {
    Figures(CountOf(items, Matched), MatchedMoney(items), CountOf(items, UnmatchedExternal),
            CountOf(items, UnmatchedInternal), CountOf(items, Discrepancy), CountOf(items, Tentative))
  }

  // ---- the expected output ----

  function KeysOf(tickets: seq<Ticket>): (keys: seq<Key>)
    ensures |keys| == |tickets|
  {
    seq(|tickets|, i requires 0 <= i < |tickets| => TicketKey(tickets[i]))
  }

  function RowKeys(txs: seq<BspTransaction>): (keys: seq<Key>)
    ensures |keys| == |txs|
  {
    seq(|txs|, i requires 0 <= i < |txs| => RowKey(txs[i]))
  }

  function RowItems(rowKeys: seq<Key>, txs: seq<BspTransaction>, keys: seq<Key>, tickets: seq<Ticket>)
    : (items: seq<Item>)
    requires |rowKeys| == |txs| && |keys| == |tickets|
    ensures |items| == |txs|
  {
    seq(|txs|, i requires 0 <= i < |txs| => RowItem(txs[i], FirstWith(keys, tickets, rowKeys[i])))
  }

  /** The keys of the sale rows. */
  function BilledKeys(rowKeys: seq<Key>, txs: seq<BspTransaction>): set<Key>
    requires |rowKeys| == |txs|
  {
    if txs == [] then {}
    else
      var n := |txs| - 1;
      BilledKeys(rowKeys[..n], txs[..n]) + if txs[n].kind == Sale then {rowKeys[n]} else {}
  }

  /** Leftover items, in ticket order: first tickets of their key that no sale row bills. */
  function Leftovers(billed: set<Key>, keys: seq<Key>, tickets: seq<Ticket>): seq<Item>
    requires |keys| == |tickets|
  {
    if tickets == [] then []
    else
      var n := |tickets| - 1;
      Leftovers(billed, keys[..n], tickets[..n])
      + if keys[n] !in keys[..n] && keys[n] !in billed then [LeftoverItem(tickets[n])] else []
  }

  function Expected(txs: seq<BspTransaction>, tickets: seq<Ticket>): seq<Item> {
    var rowKeys, keys := RowKeys(txs), KeysOf(tickets);
    RowItems(rowKeys, txs, keys, tickets) + Leftovers(BilledKeys(rowKeys, txs), keys, tickets)
  }

  // ---- the index ----

  lemma {:induction false} FirstWithAbsent(keys: seq<Key>, tickets: seq<Ticket>, key: Key)
    requires |keys| == |tickets|
    ensures FirstWith(keys, tickets, key).None? <==> key !in keys
  {
    if keys != [] {
      FirstWithAbsent(keys[1..], tickets[1..], key);
      assert keys == [keys[0]] + keys[1..];
    }
  }

  lemma {:induction false} FirstWithAppend(keys: seq<Key>, tickets: seq<Ticket>, key: Key, k: Key, t: Ticket)
    requires |keys| == |tickets|
    ensures FirstWith(keys + [k], tickets + [t], key) ==
            if FirstWith(keys, tickets, key).Some? then FirstWith(keys, tickets, key)
            else if k == key then Some(t) else None
  {
    if keys == [] {
      assert keys + [k] == [k] && tickets + [t] == [t];
    } else {
      FirstWithAppend(keys[1..], tickets[1..], key, k, t);
      assert (keys + [k])[1..] == keys[1..] + [k];
      assert (tickets + [t])[1..] == tickets[1..] + [t];
    }
  }

  /** Keys in order of first occurrence. */
  function DistinctKeys(keys: seq<Key>): seq<Key> {
    if keys == [] then []
    else
      var n := |keys| - 1;
      DistinctKeys(keys[..n]) + if keys[n] in keys[..n] then [] else [keys[n]]
  }

  /** A dictionary that answers like the linear scan for the first ticket with a key. */
  ghost predicate Indexes(index: map<Key, Ticket>, keys: seq<Key>, tickets: seq<Ticket>)
    requires |keys| == |tickets|
  {
    forall k :: FirstWith(keys, tickets, k) == if k in index then Some(index[k]) else None
  }

  lemma IndexGrows(index: map<Key, Ticket>, keys: seq<Key>, tickets: seq<Ticket>, key: Key, t: Ticket)
    requires |keys| == |tickets| && Indexes(index, keys, tickets)
    ensures Indexes(if key in index then index else index[key := t], keys + [key], tickets + [t])
  {
    var grown := if key in index then index else index[key := t];
    forall k
      ensures FirstWith(keys + [key], tickets + [t], k) == if k in grown then Some(grown[k]) else None
    {
      FirstWithAppend(keys, tickets, k, key, t);
    }
  }

  /** The ticket dictionary, first ticket of a key wins; `order` is its iteration order. */
  method TicketIndex(keys: seq<Key>, tickets: seq<Ticket>) returns (index: map<Key, Ticket>, order: seq<Key>)
    requires |keys| == |tickets|
    ensures Indexes(index, keys, tickets)
    ensures order == DistinctKeys(keys)
  {
    index, order := map[], [];
    for i := 0 to |tickets|
      invariant Indexes(index, keys[..i], tickets[..i])
      invariant order == DistinctKeys(keys[..i])
    {
      var key, t := keys[i], tickets[i];
      IndexGrows(index, keys[..i], tickets[..i], keys[i], t);
      FirstWithAbsent(keys[..i], tickets[..i], keys[i]);
      assert keys[..i + 1] == keys[..i] + [keys[i]] && tickets[..i + 1] == tickets[..i] + [t];
      if key in index {
        continue;
      }
      index := index[key := t];
      order := order + [key];
    }
    assert keys[..|tickets|] == keys && tickets[..|tickets|] == tickets;
  }

  // ---- the two passes ----

  /** Leftover items in dictionary order. */
  function Unbilled(order: seq<Key>, billed: set<Key>, keys: seq<Key>, tickets: seq<Ticket>): seq<Item>
    requires |keys| == |tickets|
  {
    if order == [] then []
    else
      var n := |order| - 1;
      var found := FirstWith(keys, tickets, order[n]);
      Unbilled(order[..n], billed, keys, tickets)
      + if found.Some? && order[n] !in billed then [LeftoverItem(found.value)] else []
  }

  lemma {:induction false} FirstOccurrence(keys: seq<Key>, tickets: seq<Ticket>, n: nat)
    requires |keys| == |tickets| && n < |keys| && keys[n] !in keys[..n]
    ensures FirstWith(keys, tickets, keys[n]) == Some(tickets[n])
  {
    if n > 0 {
      assert keys[0] in keys[..n];
      assert keys[1..][..n - 1] == keys[..n][1..];
      FirstOccurrence(keys[1..], tickets[1..], n - 1);
    }
  }

  lemma DistinctKeysStep(keys: seq<Key>, k: nat)
    requires k < |keys|
    ensures DistinctKeys(keys[..k + 1]) == DistinctKeys(keys[..k]) + if keys[k] in keys[..k] then [] else [keys[k]]
  {
    assert keys[..k + 1][..k] == keys[..k];
  }

  lemma LeftoversStep(billed: set<Key>, keys: seq<Key>, tickets: seq<Ticket>, k: nat)
    requires |keys| == |tickets| && k < |keys|
    ensures Leftovers(billed, keys[..k + 1], tickets[..k + 1]) == Leftovers(billed, keys[..k], tickets[..k])
          + if keys[k] !in keys[..k] && keys[k] !in billed then [LeftoverItem(tickets[k])] else []
  {
    assert keys[..k + 1][..k] == keys[..k] && tickets[..k + 1][..k] == tickets[..k];
  }

  lemma UnbilledAppend(order: seq<Key>, key: Key, billed: set<Key>, keys: seq<Key>, tickets: seq<Ticket>)
    requires |keys| == |tickets|
    ensures var found := FirstWith(keys, tickets, key);
            Unbilled(order + [key], billed, keys, tickets) == Unbilled(order, billed, keys, tickets)
              + (if found.Some? && key !in billed then [LeftoverItem(found.value)] else [])
  {
    assert (order + [key])[..|order|] == order;
  }

  /** Walking the dictionary in insertion order meets the first tickets in ticket order. */
  lemma {:induction false} DictionaryOrder(billed: set<Key>, keys: seq<Key>, tickets: seq<Ticket>, n: nat)
    requires |keys| == |tickets| && n <= |keys|
    ensures Unbilled(DistinctKeys(keys[..n]), billed, keys, tickets) == Leftovers(billed, keys[..n], tickets[..n])
  {
    if n > 0 {
      var k := n - 1;
      var order := DistinctKeys(keys[..k]);
      DictionaryOrder(billed, keys, tickets, k);
      DistinctKeysStep(keys, k);
      LeftoversStep(billed, keys, tickets, k);
      if keys[k] in keys[..k] {
        assert order + [] == order;
      } else {
        FirstOccurrence(keys, tickets, k);
        UnbilledAppend(order, keys[k], billed, keys, tickets);
      }
    }
  }

  /** The body of the first pass: one report row, with the ticket its key found. */
  method ReconcileRow(tx: BspTransaction, found: Option<Ticket>, figures: Figures, ghost items: seq<Item>)
    returns (item: Item, counted: Figures)
    requires figures == FiguresOf(items)
    ensures item == RowItem(tx, found)
    ensures counted == FiguresOf(items + [item])
  {
    if tx.kind != Sale || found.None? {
      item := Item(UnmatchedExternal, CONFIDENCE_EXACT, Some(tx.documentNumber), Some(tx.net),
                   Some(tx.issueDate), [], None, None);
      counted := figures.(unmatchedExternalCount := figures.unmatchedExternalCount + 1);
    } else {
      var internal := found.value.total;
      if internal.currency != tx.net.currency {
        item := Item(Tentative, CONFIDENCE_TENTATIVE, Some(tx.documentNumber), Some(tx.net),
                     Some(tx.issueDate), [found.value.id], Some(internal), None);
        counted := figures.(tentativeCount := figures.tentativeCount + 1);
      } else if WithinTolerance(internal.amount, tx.net.amount) {
        var money := figures.matchedAmount;
        if money.None? {
          money := Some(Money(0.0, tx.net.currency));
        }
        if money.value.currency == tx.net.currency {
          money := Some(Money(money.value.amount + tx.net.amount, tx.net.currency));
        }
        item := Item(Matched, CONFIDENCE_EXACT, Some(tx.documentNumber), Some(tx.net),
                     Some(tx.issueDate), [found.value.id], Some(internal), Some(Money(0.0, tx.net.currency)));
        counted := figures.(matchedCount := figures.matchedCount + 1, matchedAmount := money);
      } else {
        item := Item(Discrepancy, CONFIDENCE_DISCREPANCY, Some(tx.documentNumber), Some(tx.net),
                     Some(tx.issueDate), [found.value.id], Some(internal),
                     Some(Money(tx.net.amount - internal.amount, tx.net.currency)));
        counted := figures.(discrepancyCount := figures.discrepancyCount + 1);
      }
    }
    assert (items + [item])[..|items|] == items;
  }

  lemma BilledStep(rowKeys: seq<Key>, txs: seq<BspTransaction>, i: nat)
    requires |rowKeys| == |txs| && i < |txs|
    ensures BilledKeys(rowKeys[..i + 1], txs[..i + 1])
         == BilledKeys(rowKeys[..i], txs[..i]) + if txs[i].kind == Sale then {rowKeys[i]} else {}
  {
    assert rowKeys[..i + 1][..i] == rowKeys[..i] && txs[..i + 1][..i] == txs[..i];
  }

  lemma RowItemsStep(rowKeys: seq<Key>, txs: seq<BspTransaction>, keys: seq<Key>, tickets: seq<Ticket>, i: nat)
    requires |rowKeys| == |txs| && |keys| == |tickets| && i < |txs|
    ensures RowItems(rowKeys[..i + 1], txs[..i + 1], keys, tickets)
         == RowItems(rowKeys[..i], txs[..i], keys, tickets) + [RowItem(txs[i], FirstWith(keys, tickets, rowKeys[i]))]
  {
  }

  /** The keys of sale rows that the index knows. */
  predicate MatchedAre(matchedKeys: set<Key>, index: map<Key, Ticket>, billed: set<Key>) {
    matchedKeys == index.Keys * billed
  }

  lemma MatchedStep(matchedKeys: set<Key>, index: map<Key, Ticket>, rowKeys: seq<Key>, txs: seq<BspTransaction>, i: nat)
    requires |rowKeys| == |txs| && i < |txs|
    requires MatchedAre(matchedKeys, index, BilledKeys(rowKeys[..i], txs[..i]))
    ensures MatchedAre(
              if txs[i].kind == Sale && rowKeys[i] in index then matchedKeys + {rowKeys[i]} else matchedKeys,
              index, BilledKeys(rowKeys[..i + 1], txs[..i + 1]))
  {
    BilledStep(rowKeys, txs, i);
  }

  /** First pass: every report row, in statement order. */
  method MatchRows(rowKeys: seq<Key>, txs: seq<BspTransaction>, index: map<Key, Ticket>,
                   ghost keys: seq<Key>, ghost tickets: seq<Ticket>)
    returns (items: seq<Item>, figures: Figures, matchedKeys: set<Key>)
    requires |rowKeys| == |txs| && |keys| == |tickets| && Indexes(index, keys, tickets)
    ensures items == RowItems(rowKeys, txs, keys, tickets)
    ensures figures == FiguresOf(items)
    ensures MatchedAre(matchedKeys, index, BilledKeys(rowKeys, txs))
  {
    matchedKeys, items, figures := {}, [], Figures(0, None, 0, 0, 0, 0);
    for i := 0 to |txs|
      invariant items == RowItems(rowKeys[..i], txs[..i], keys, tickets)
      invariant MatchedAre(matchedKeys, index, BilledKeys(rowKeys[..i], txs[..i]))
      invariant figures == FiguresOf(items)
    {
      var key := rowKeys[i];
      var found := if key in index then Some(index[key]) else None;
      MatchedStep(matchedKeys, index, rowKeys, txs, i);
      RowItemsStep(rowKeys, txs, keys, tickets, i);
      if txs[i].kind == Sale && found.Some? {
        matchedKeys := matchedKeys + {key};
      }
      var item;
      item, figures := ReconcileRow(txs[i], found, figures, items);
      items := items + [item];
    }
    assert rowKeys[..|txs|] == rowKeys && txs[..|txs|] == txs;
  }

  lemma UnbilledStep(order: seq<Key>, j: nat, index: map<Key, Ticket>, billed: set<Key>,
                     keys: seq<Key>, tickets: seq<Ticket>)
    requires |keys| == |tickets| && Indexes(index, keys, tickets) && order == DistinctKeys(keys) && j < |order|
    ensures order[j] in index
    ensures Unbilled(order[..j + 1], billed, keys, tickets) == Unbilled(order[..j], billed, keys, tickets)
          + if order[j] !in billed then [LeftoverItem(index[order[j]])] else []
  {
    assert order[..j + 1] == order[..j] + [order[j]];
    IndexedKeys(index, keys, tickets, order[j]);
    UnbilledAppend(order[..j], order[j], billed, keys, tickets);
  }

  /** Second pass: the tickets no row matched, in dictionary order. */
  method AddLeftovers(order: seq<Key>, index: map<Key, Ticket>, matchedKeys: set<Key>,
                      rowItems: seq<Item>, before: Figures,
                      ghost billed: set<Key>, ghost keys: seq<Key>, ghost tickets: seq<Ticket>)
    returns (items: seq<Item>, figures: Figures)
    requires |keys| == |tickets| && Indexes(index, keys, tickets)
    requires order == DistinctKeys(keys) && before == FiguresOf(rowItems)
    requires MatchedAre(matchedKeys, index, billed)
    ensures items == rowItems + Leftovers(billed, keys, tickets)
    ensures figures == FiguresOf(items)
  {
    items, figures := rowItems, before;
    for j := 0 to |order|
      invariant items == rowItems + Unbilled(order[..j], billed, keys, tickets)
      invariant figures == FiguresOf(items)
    {
      var key := order[j];
      UnbilledStep(order, j, index, billed, keys, tickets);
      if key !in matchedKeys {
        items, figures := AddLeftover(index[key], items, figures);
      }
    }
    assert order[..|order|] == order;
    DictionaryOrder(billed, keys, tickets, |tickets|);
    assert keys[..|tickets|] == keys && tickets[..|tickets|] == tickets;
  }

  /** The body of the second pass: one ticket no row matched. */
  method AddLeftover(t: Ticket, before: seq<Item>, counted: Figures) returns (items: seq<Item>, figures: Figures)
    requires counted == FiguresOf(before)
    ensures items == before + [LeftoverItem(t)]
    ensures figures == FiguresOf(items)
  {
    figures := counted.(unmatchedInternalCount := counted.unmatchedInternalCount + 1);
    items := before + [Item(UnmatchedInternal, CONFIDENCE_EXACT, None, None, None, [t.id], Some(t.total), None)];
    assert items[..|before|] == before;
  }

  method Reconcile(txs: seq<BspTransaction>, tickets: seq<Ticket>) returns (items: seq<Item>, figures: Figures)
    ensures items == Expected(txs, tickets)
    ensures figures == FiguresOf(items)
  {
    var index, order := TicketIndex(KeysOf(tickets), tickets);
    var rowItems, rowFigures, matchedKeys := MatchRows(RowKeys(txs), txs, index, KeysOf(tickets), tickets);
    items, figures := AddLeftovers(order, index, matchedKeys, rowItems, rowFigures,
                                   BilledKeys(RowKeys(txs), txs), KeysOf(tickets), tickets);
  }

  lemma IndexedKeys(index: map<Key, Ticket>, keys: seq<Key>, tickets: seq<Ticket>, key: Key)
    requires |keys| == |tickets| && Indexes(index, keys, tickets) && key in DistinctKeys(keys)
    ensures key in index && FirstWith(keys, tickets, key) == Some(index[key])
  {
    DistinctAreKeys(keys, key);
    FirstWithAbsent(keys, tickets, key);
  }

  lemma {:induction false} DistinctAreKeys(keys: seq<Key>, key: Key)
    ensures key in DistinctKeys(keys) <==> key in keys
  {
    if keys != [] {
      var n := |keys| - 1;
      DistinctAreKeys(keys[..n], key);
      assert keys == keys[..n] + [keys[n]];
    }
  }
}
