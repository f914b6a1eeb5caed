/** What a reconciliation conserves, accounts for and reports, for all rows and all tickets. */
module ReconciliationTheorems {
  import opened Wrappers
  import opened Text
  import opened Canonical
  import opened BspReport
  import opened Reconciliation

  // ---- external side ----

  function ExternalAmount(item: Item): real {
    if item.externalAmount.Some? then item.externalAmount.value.amount else 0.0
  }

  function SumExternal(items: seq<Item>): real {
    if items == [] then 0.0 else SumExternal(items[..|items| - 1]) + ExternalAmount(items[|items| - 1])
  }

  /** An item that carries a row's reference, amount and date. */
  predicate Carries(item: Item, tx: BspTransaction) {
    && item.externalRef == Some(tx.documentNumber)
    && item.externalAmount == Some(tx.net)
    && item.externalDate == Some(tx.issueDate)
    && item.outcome != UnmatchedInternal
  }

  predicate IsInternal(item: Item) {
    && item.externalAmount.None? && item.externalRef.None? && item.externalDate.None? && item.delta.None?
    && item.outcome == UnmatchedInternal && item.confidence == 10_000
  }

  lemma RowItemCarriesRow(tx: BspTransaction, found: Option<Ticket>)
    ensures Carries(RowItem(tx, found), tx)
  {
  }

  /** Each row yields exactly one external item, in statement order; the rest are internal. */
  lemma OneItemPerRow(txs: seq<BspTransaction>, tickets: seq<Ticket>)
    ensures var items := Expected(txs, tickets);
            && |items| >= |txs|
            && (forall i :: 0 <= i < |txs| ==> Carries(items[i], txs[i]))
            && (forall i :: |txs| <= i < |items| ==> IsInternal(items[i]))
  {
    var keys, rowKeys := KeysOf(tickets), RowKeys(txs);
    var rest := Leftovers(BilledKeys(rowKeys, txs), keys, tickets);
    LeftoversAreInternal(BilledKeys(rowKeys, txs), keys, tickets);
    forall i | 0 <= i < |txs|
      ensures Carries(RowItems(rowKeys, txs, keys, tickets)[i], txs[i])
    {
      RowItemCarriesRow(txs[i], FirstWith(keys, tickets, rowKeys[i]));
    }
    assert Expected(txs, tickets) == RowItems(rowKeys, txs, keys, tickets) + rest;
    assert forall i :: 0 <= i < |rest| ==> rest[i] in rest;
  }

  lemma {:induction false} LeftoversAreInternal(billed: set<Key>, keys: seq<Key>, tickets: seq<Ticket>)
    requires |keys| == |tickets|
    ensures forall item :: item in Leftovers(billed, keys, tickets) ==> IsInternal(item)
  {
    if tickets != [] {
      LeftoversAreInternal(billed, keys[..|keys| - 1], tickets[..|keys| - 1]);
    }
  }

  lemma {:induction false} SumExternalConcat(a: seq<Item>, b: seq<Item>)
    requires forall item :: item in b ==> item.externalAmount.None?
    ensures SumExternal(a + b) == SumExternal(a)
  {
    if b == [] {
      assert a + b == a;
    } else {
      var n := |b| - 1;
      SumExternalConcat(a, b[..n]);
      assert (a + b)[..|a| + n] == a + b[..n];
    }
  }

  lemma {:induction false} SumExternalOfRows(txs: seq<BspTransaction>, items: seq<Item>)
    requires |items| == |txs| && forall i :: 0 <= i < |txs| ==> items[i].externalAmount == Some(txs[i].net)
    ensures SumExternal(items) == SumRowNet(txs)
  {
    if txs != [] {
      SumExternalOfRows(txs[..|txs| - 1], items[..|txs| - 1]);
    }
  }

  /** External money is conserved: no row is dropped, doubled or altered, whatever the tickets. */
  lemma ExternalConservation(txs: seq<BspTransaction>, tickets: seq<Ticket>)
    ensures SumExternal(Expected(txs, tickets)) == SumRowNet(txs)
  {
    OneItemPerRow(txs, tickets);
    ExternalSumOf(txs, Expected(txs, tickets));
  }

  lemma ExternalSumOf(txs: seq<BspTransaction>, items: seq<Item>)
    requires |items| >= |txs|
    requires forall i :: 0 <= i < |txs| ==> items[i].externalAmount == Some(txs[i].net)
    requires forall i :: |txs| <= i < |items| ==> items[i].externalAmount.None?
    ensures SumExternal(items) == SumRowNet(txs)
  {
    assert items == items[..|txs|] + items[|txs|..];
    SumExternalConcat(items[..|txs|], items[|txs|..]);
    SumExternalOfRows(txs, items[..|txs|]);
  }

  // ---- internal side: money ----

  function In(m: Money, currency: string): real {
    if m.currency == currency then m.amount else 0.0
  }

  function InternalIn(item: Item, currency: string): real {
    if item.internalAmount.Some? then In(item.internalAmount.value, currency) else 0.0
  }

  function SumInternal(items: seq<Item>, currency: string): real {
    if items == [] then 0.0 else SumInternal(items[..|items| - 1], currency) + InternalIn(items[|items| - 1], currency)
  }

  function SumTickets(tickets: seq<Ticket>, currency: string): real {
    if tickets == [] then 0.0
    else SumTickets(tickets[..|tickets| - 1], currency) + In(tickets[|tickets| - 1].total, currency)
  }

  /** Tickets whose key an earlier ticket already has. */
  function SumDuplicates(keys: seq<Key>, tickets: seq<Ticket>, currency: string): real
    requires |keys| == |tickets|
  {
    if tickets == [] then 0.0
    else
      var n := |tickets| - 1;
      SumDuplicates(keys[..n], tickets[..n], currency)
      + if keys[n] in keys[..n] then In(tickets[n].total, currency) else 0.0
  }

  /** Tickets met again by a sale row whose key an earlier sale row already had. */
  function SumRepeats(rowKeys: seq<Key>, txs: seq<BspTransaction>, keys: seq<Key>, tickets: seq<Ticket>,
                      currency: string): real
    requires |rowKeys| == |txs| && |keys| == |tickets|
  {
    if txs == [] then 0.0
    else
      var n := |txs| - 1;
      var found := FirstWith(keys, tickets, rowKeys[n]);
      SumRepeats(rowKeys[..n], txs[..n], keys, tickets, currency)
      + if txs[n].kind == Sale && found.Some? && rowKeys[n] in BilledKeys(rowKeys[..n], txs[..n])
        then In(found.value.total, currency) else 0.0
  }

  lemma {:induction false} SumInternalConcat(a: seq<Item>, b: seq<Item>, currency: string)
    ensures SumInternal(a + b, currency) == SumInternal(a, currency) + SumInternal(b, currency)
  {
    if b == [] {
      assert a + b == a;
    } else {
      var n := |b| - 1;
      SumInternalConcat(a, b[..n], currency);
      assert (a + b)[..|a| + n] == a + b[..n];
    }
  }

  function SumLeftovers(billed: set<Key>, keys: seq<Key>, tickets: seq<Ticket>, currency: string): real
    requires |keys| == |tickets|
  {
    if tickets == [] then 0.0
    else
      var n := |tickets| - 1;
      SumLeftovers(billed, keys[..n], tickets[..n], currency)
      + if keys[n] !in keys[..n] && keys[n] !in billed then In(tickets[n].total, currency) else 0.0
  }

  lemma {:induction false} LeftoversSum(billed: set<Key>, keys: seq<Key>, tickets: seq<Ticket>, currency: string)
    requires |keys| == |tickets|
    ensures SumInternal(Leftovers(billed, keys, tickets), currency) == SumLeftovers(billed, keys, tickets, currency)
  {
    if tickets != [] {
      var n := |keys| - 1;
      var rest := Leftovers(billed, keys[..n], tickets[..n]);
      LeftoversSum(billed, keys[..n], tickets[..n], currency);
      if keys[n] !in keys[..n] && keys[n] !in billed {
        assert (rest + [LeftoverItem(tickets[n])])[..|rest|] == rest;
      } else {
        assert Leftovers(billed, keys, tickets) == rest;
      }
    }
  }

  /** Billing nothing leaves every first ticket over. */
  lemma {:induction false} NothingBilled(keys: seq<Key>, tickets: seq<Ticket>, currency: string)
    requires |keys| == |tickets|
    ensures SumLeftovers({}, keys, tickets, currency)
         == SumTickets(tickets, currency) - SumDuplicates(keys, tickets, currency)
  {
    if tickets != [] {
      NothingBilled(keys[..|keys| - 1], tickets[..|keys| - 1], currency);
    }
  }

  function FoundIn(found: Option<Ticket>, currency: string): real {
    if found.Some? then In(found.value.total, currency) else 0.0
  }

  /** Billing one more key takes exactly its first ticket out of the leftovers. */
  lemma {:induction false} BillOneKey(billed: set<Key>, key: Key, keys: seq<Key>, tickets: seq<Ticket>,
                                      currency: string)
    requires |keys| == |tickets| && key !in billed
    ensures SumLeftovers(billed + {key}, keys, tickets, currency)
         == SumLeftovers(billed, keys, tickets, currency) - FoundIn(FirstWith(keys, tickets, key), currency)
  {
    if tickets != [] {
      var n := |tickets| - 1;
      BillOneKey(billed, key, keys[..n], tickets[..n], currency);
      FirstWithAppend(keys[..n], tickets[..n], key, keys[n], tickets[n]);
      FirstWithAbsent(keys[..n], tickets[..n], key);
      assert keys == keys[..n] + [keys[n]] && tickets == tickets[..n] + [tickets[n]];
    }
  }

  lemma {:induction false} RowsAndLeftovers(rowKeys: seq<Key>, txs: seq<BspTransaction>, keys: seq<Key>,
                                            tickets: seq<Ticket>, currency: string)
    requires |rowKeys| == |txs| && |keys| == |tickets|
    ensures SumInternal(RowItems(rowKeys, txs, keys, tickets), currency)
          + SumLeftovers(BilledKeys(rowKeys, txs), keys, tickets, currency)
         == SumTickets(tickets, currency) - SumDuplicates(keys, tickets, currency)
          + SumRepeats(rowKeys, txs, keys, tickets, currency)
  {
    if txs == [] {
      NothingBilled(keys, tickets, currency);
    } else {
      var n := |txs| - 1;
      var key, billed := rowKeys[n], BilledKeys(rowKeys[..n], txs[..n]);
      RowsAndLeftovers(rowKeys[..n], txs[..n], keys, tickets, currency);
      assert RowItems(rowKeys, txs, keys, tickets)[..n] == RowItems(rowKeys[..n], txs[..n], keys, tickets);
      if txs[n].kind == Sale && key !in billed {
        BillOneKey(billed, key, keys, tickets, currency);
      } else {
        assert BilledKeys(rowKeys, txs) == billed;
      }
    }
  }

  /**
   Internal money, currency by currency, with no hypothesis: the items hold all tickets, less the tickets whose
   key an earlier ticket has, plus the tickets that repeated sale rows count again.
   */
  lemma InternalAccounting(txs: seq<BspTransaction>, tickets: seq<Ticket>, currency: string)
    ensures SumInternal(Expected(txs, tickets), currency)
         == SumTickets(tickets, currency) - SumDuplicates(KeysOf(tickets), tickets, currency)
          + SumRepeats(RowKeys(txs), txs, KeysOf(tickets), tickets, currency)
  {
    var keys, rowKeys := KeysOf(tickets), RowKeys(txs);
    var rows, rest := RowItems(rowKeys, txs, keys, tickets), Leftovers(BilledKeys(rowKeys, txs), keys, tickets);
    SumInternalConcat(rows, rest, currency);
    LeftoversSum(BilledKeys(rowKeys, txs), keys, tickets, currency);
    RowsAndLeftovers(rowKeys, txs, keys, tickets, currency);
  }

  predicate Distinct(keys: seq<Key>) {
    forall i, j :: 0 <= i < j < |keys| ==> keys[i] != keys[j]
  }

  predicate DistinctSales(rowKeys: seq<Key>, txs: seq<BspTransaction>)
    requires |rowKeys| == |txs|
  {
    forall i, j :: 0 <= i < j < |txs| && txs[i].kind == Sale && txs[j].kind == Sale ==> rowKeys[i] != rowKeys[j]
  }

  lemma {:induction false} NoDuplicates(keys: seq<Key>, tickets: seq<Ticket>, currency: string)
    requires |keys| == |tickets| && Distinct(keys)
    ensures SumDuplicates(keys, tickets, currency) == 0.0
  {
    if tickets != [] {
      NoDuplicates(keys[..|keys| - 1], tickets[..|keys| - 1], currency);
    }
  }

  lemma {:induction false} BilledAreSales(rowKeys: seq<Key>, txs: seq<BspTransaction>, key: Key)
    requires |rowKeys| == |txs|
    ensures key in BilledKeys(rowKeys, txs) <==> exists i :: 0 <= i < |txs| && txs[i].kind == Sale && rowKeys[i] == key
  {
    if txs != [] {
      var n := |txs| - 1;
      BilledAreSales(rowKeys[..n], txs[..n], key);
      if i :| 0 <= i < |txs| && txs[i].kind == Sale && rowKeys[i] == key {
        if i < n {
          assert txs[..n][i].kind == Sale && rowKeys[..n][i] == key;
        }
      }
      if i :| 0 <= i < n && txs[..n][i].kind == Sale && rowKeys[..n][i] == key {
        assert txs[i].kind == Sale && rowKeys[i] == key;
      }
    }
  }

  lemma {:induction false} NoRepeats(rowKeys: seq<Key>, txs: seq<BspTransaction>, keys: seq<Key>,
                                     tickets: seq<Ticket>, currency: string)
    requires |rowKeys| == |txs| && |keys| == |tickets| && DistinctSales(rowKeys, txs)
    ensures SumRepeats(rowKeys, txs, keys, tickets, currency) == 0.0
  {
    if txs != [] {
      var n := |txs| - 1;
      NoRepeats(rowKeys[..n], txs[..n], keys, tickets, currency);
      BilledAreSales(rowKeys[..n], txs[..n], rowKeys[n]);
    }
  }

  /** With distinct ticket keys and distinct sale keys, internal money is conserved in every currency. */
  lemma InternalConservation(txs: seq<BspTransaction>, tickets: seq<Ticket>, currency: string)
    requires Distinct(KeysOf(tickets)) && DistinctSales(RowKeys(txs), txs)
    ensures SumInternal(Expected(txs, tickets), currency) == SumTickets(tickets, currency)
  {
    InternalAccounting(txs, tickets, currency);
    NoDuplicates(KeysOf(tickets), tickets, currency);
    NoRepeats(RowKeys(txs), txs, KeysOf(tickets), tickets, currency);
  }

  // ---- internal side: each ticket ----

  function CountRefs(items: seq<Item>, id: string): nat {
    if items == [] then 0
    else CountRefs(items[..|items| - 1], id) + if id in items[|items| - 1].internalRefs then 1 else 0
  }

  /** Sale rows that carry a key. */
  function CountSales(rowKeys: seq<Key>, txs: seq<BspTransaction>, key: Key): nat
    requires |rowKeys| == |txs|
  {
    if txs == [] then 0
    else
      var n := |txs| - 1;
      CountSales(rowKeys[..n], txs[..n], key) + if txs[n].kind == Sale && rowKeys[n] == key then 1 else 0
  }

  predicate DistinctIds(tickets: seq<Ticket>) {
    forall i, j :: 0 <= i < j < |tickets| ==> tickets[i].id != tickets[j].id
  }

  /** The ticket at `i` is the one its key finds. */
  predicate IsFirst(keys: seq<Key>, i: nat)
    requires i < |keys|
  {
    keys[i] !in keys[..i]
  }

  lemma {:induction false} FoundAt(keys: seq<Key>, tickets: seq<Ticket>, key: Key) returns (m: nat)
    requires |keys| == |tickets| && key in keys
    ensures m < |keys| && keys[m] == key && key !in keys[..m]
    ensures FirstWith(keys, tickets, key) == Some(tickets[m])
  {
    if keys[0] == key {
      m := 0;
    } else {
      assert keys == [keys[0]] + keys[1..];
      var k := FoundAt(keys[1..], tickets[1..], key);
      m := k + 1;
      assert keys[..m] == [keys[0]] + keys[1..][..k];
    }
  }

  /** A key finds the ticket at `i` exactly when it is that ticket's key and the ticket is first with it. */
  lemma FindsTicket(keys: seq<Key>, tickets: seq<Ticket>, key: Key, i: nat)
    requires |keys| == |tickets| && i < |tickets| && DistinctIds(tickets)
    ensures (FirstWith(keys, tickets, key).Some? && FirstWith(keys, tickets, key).value.id == tickets[i].id)
       <==> (keys[i] == key && IsFirst(keys, i))
  {
    if key in keys {
      var m := FoundAt(keys, tickets, key);
      if m < i {
        assert keys[..i][m] == key;
      } else if i < m {
        assert keys[i] in keys[..m];
      }
    } else {
      FirstWithAbsent(keys, tickets, key);
    }
  }

  lemma {:induction false} RowReferences(rowKeys: seq<Key>, txs: seq<BspTransaction>, keys: seq<Key>,
                                         tickets: seq<Ticket>, i: nat)
    requires |rowKeys| == |txs| && |keys| == |tickets| && i < |tickets| && DistinctIds(tickets)
    ensures CountRefs(RowItems(rowKeys, txs, keys, tickets), tickets[i].id)
         == if IsFirst(keys, i) then CountSales(rowKeys, txs, keys[i]) else 0
  {
    if txs != [] {
      var n := |txs| - 1;
      RowReferences(rowKeys[..n], txs[..n], keys, tickets, i);
      assert RowItems(rowKeys, txs, keys, tickets)[..n] == RowItems(rowKeys[..n], txs[..n], keys, tickets);
      FindsTicket(keys, tickets, rowKeys[n], i);
    }
  }

  lemma LeftoverStep(billed: set<Key>, keys: seq<Key>, tickets: seq<Ticket>, id: string, n: nat)
    requires |keys| == |tickets| == n + 1
    ensures CountRefs(Leftovers(billed, keys, tickets), id) == CountRefs(Leftovers(billed, keys[..n], tickets[..n]), id)
          + if tickets[n].id == id && IsFirst(keys, n) && keys[n] !in billed then 1 else 0
  {
    var rest := Leftovers(billed, keys[..n], tickets[..n]);
    if IsFirst(keys, n) && keys[n] !in billed {
      assert (rest + [LeftoverItem(tickets[n])])[..|rest|] == rest;
    } else {
      assert Leftovers(billed, keys, tickets) == rest;
    }
  }

  lemma {:induction false} LeftoverReferences(billed: set<Key>, keys: seq<Key>, tickets: seq<Ticket>,
                                              id: string, i: nat)
    requires |keys| == |tickets|
    requires forall j :: 0 <= j < |tickets| ==> (tickets[j].id == id <==> j == i)
    ensures CountRefs(Leftovers(billed, keys, tickets), id)
         == if i < |tickets| && IsFirst(keys, i) && keys[i] !in billed then 1 else 0
  {
    if tickets != [] {
      var n := |tickets| - 1;
      LeftoverReferences(billed, keys[..n], tickets[..n], id, i);
      LeftoverStep(billed, keys, tickets, id, n);
      assert i < n ==> keys[..n][..i] == keys[..i];
    }
  }

  lemma {:induction false} CountRefsConcat(a: seq<Item>, b: seq<Item>, id: string)
    ensures CountRefs(a + b, id) == CountRefs(a, id) + CountRefs(b, id)
  {
    if b == [] {
      assert a + b == a;
    } else {
      var n := |b| - 1;
      CountRefsConcat(a, b[..n], id);
      assert (a + b)[..|a| + n] == a + b[..n];
    }
  }

  lemma {:induction false} SalesAreBilled(rowKeys: seq<Key>, txs: seq<BspTransaction>, key: Key)
    requires |rowKeys| == |txs|
    ensures key in BilledKeys(rowKeys, txs) <==> CountSales(rowKeys, txs, key) > 0
  {
    if txs != [] {
      SalesAreBilled(rowKeys[..|txs| - 1], txs[..|txs| - 1], key);
    }
  }

  /**
   How often each ticket is referred to, for all rows and tickets: a ticket that is not first with its key never;
   a first ticket once per sale row with its key, and otherwise exactly once, as unmatched internal.
   */
  lemma TicketReferences(txs: seq<BspTransaction>, tickets: seq<Ticket>, i: nat)
    requires DistinctIds(tickets) && i < |tickets|
    ensures var keys, rowKeys, id := KeysOf(tickets), RowKeys(txs), tickets[i].id;
            var rows, rest := Expected(txs, tickets)[..|txs|], Expected(txs, tickets)[|txs|..];
            && (!IsFirst(keys, i) ==> CountRefs(Expected(txs, tickets), id) == 0)
            && (IsFirst(keys, i) ==>
                  && CountRefs(rows, id) == CountSales(rowKeys, txs, keys[i])
                  && CountRefs(rest, id) == if CountSales(rowKeys, txs, keys[i]) == 0 then 1 else 0)
  {
    var keys, rowKeys, id := KeysOf(tickets), RowKeys(txs), tickets[i].id;
    var billed := BilledKeys(rowKeys, txs);
    var rows, rest := RowItems(rowKeys, txs, keys, tickets), Leftovers(billed, keys, tickets);
    RowReferences(rowKeys, txs, keys, tickets, i);
    LeftoverReferences(billed, keys, tickets, id, i);
    SalesAreBilled(rowKeys, txs, keys[i]);
    CountRefsConcat(rows, rest, id);
    assert (rows + rest)[..|txs|] == rows && (rows + rest)[|txs|..] == rest;
  }

  /** With distinct keys, each ticket is on some external item or on exactly one unmatched-internal item, never both. */
  lemma EveryTicketAccountedFor(txs: seq<BspTransaction>, tickets: seq<Ticket>, i: nat)
    requires DistinctIds(tickets) && Distinct(KeysOf(tickets)) && i < |tickets|
    ensures var id := tickets[i].id;
            var items := Expected(txs, tickets);
            var onRows, left := CountRefs(items[..|txs|], id), CountRefs(items[|txs|..], id);
            (onRows >= 1 && left == 0) || (onRows == 0 && left == 1)
  {
    TicketReferences(txs, tickets, i);
  }

  /** A second ticket with the same number and airline is in no item at all, although the log line says otherwise. */
  lemma DuplicateTicketVanishes(txs: seq<BspTransaction>, t: Ticket, otherId: string)
    requires otherId != t.id
    ensures CountRefs(Expected(txs, [t, t.(id := otherId)]), otherId) == 0
  {
    var tickets := [t, t.(id := otherId)];
    assert KeysOf(tickets)[1] == KeysOf(tickets)[0];
    assert KeysOf(tickets)[..1][0] == KeysOf(tickets)[0];
    TicketReferences(txs, tickets, 1);
  }

  // ---- the leftover tickets, in order ----

  predicate IsLeftover(item: Item, t: Ticket) {
    && item.outcome == UnmatchedInternal && item.confidence == 10_000
    && item.internalRefs == [t.id] && item.internalAmount == Some(t.total)
  }

  predicate Ascending(places: seq<nat>) {
    forall a, b :: 0 <= a < b < |places| ==> places[a] < places[b]
  }

  /** The items from `start` on are leftovers of the tickets at the given places. */
  predicate LeftoversAt(items: seq<Item>, start: nat, tickets: seq<Ticket>, places: seq<nat>) {
    && |items| == start + |places|
    && forall a :: 0 <= a < |places| ==>
         places[a] < |tickets| && IsLeftover(items[start + a], tickets[places[a]])
  }

  lemma {:induction false} LeftoverPlaces(billed: set<Key>, keys: seq<Key>, tickets: seq<Ticket>)
    returns (places: seq<nat>)
    requires |keys| == |tickets|
    ensures Ascending(places) && LeftoversAt(Leftovers(billed, keys, tickets), 0, tickets, places)
    ensures forall a :: 0 <= a < |places| ==> places[a] < |tickets|
  {
    if tickets == [] {
      places := [];
    } else {
      var n := |tickets| - 1;
      var items := Leftovers(billed, keys[..n], tickets[..n]);
      places := LeftoverPlaces(billed, keys[..n], tickets[..n]);
      MoreTickets(items, tickets, places, n);
      if keys[n] !in keys[..n] && keys[n] !in billed {
        OneMoreLeftover(items, tickets, places, n);
        places := places + [n];
      } else {
        assert Leftovers(billed, keys, tickets) == items;
      }
    }
  }

  lemma MoreTickets(items: seq<Item>, tickets: seq<Ticket>, places: seq<nat>, n: nat)
    requires n <= |tickets| && LeftoversAt(items, 0, tickets[..n], places)
    ensures LeftoversAt(items, 0, tickets, places)
  {
    forall a | 0 <= a < |places|
      ensures places[a] < |tickets| && IsLeftover(items[0 + a], tickets[places[a]])
    {
      assert tickets[..n][places[a]] == tickets[places[a]];
    }
  }

  lemma OneMoreLeftover(items: seq<Item>, tickets: seq<Ticket>, places: seq<nat>, n: nat)
    requires n < |tickets| && LeftoversAt(items, 0, tickets, places)
    ensures LeftoversAt(items + [LeftoverItem(tickets[n])], 0, tickets, places + [n])
  {
    var more, further := items + [LeftoverItem(tickets[n])], places + [n];
    forall a | 0 <= a < |further|
      ensures further[a] < |tickets| && IsLeftover(more[0 + a], tickets[further[a]])
    {
      if a < |places| {
        assert more[0 + a] == items[0 + a] && further[a] == places[a];
      }
    }
  }

  lemma AfterRows(rows: seq<Item>, rest: seq<Item>, tickets: seq<Ticket>, places: seq<nat>)
    requires LeftoversAt(rest, 0, tickets, places)
    ensures LeftoversAt(rows + rest, |rows|, tickets, places)
  {
    forall a | 0 <= a < |places|
      ensures places[a] < |tickets| && IsLeftover((rows + rest)[|rows| + a], tickets[places[a]])
    {
      assert (rows + rest)[|rows| + a] == rest[0 + a];
    }
  }

  /** The internal items follow the rows in ticket order, each naming one ticket and its total. */
  lemma LeftoversInTicketOrder(txs: seq<BspTransaction>, tickets: seq<Ticket>) returns (places: seq<nat>)
    ensures Ascending(places) && LeftoversAt(Expected(txs, tickets), |txs|, tickets, places)
  {
    var keys, rowKeys := KeysOf(tickets), RowKeys(txs);
    var rows, rest := RowItems(rowKeys, txs, keys, tickets), Leftovers(BilledKeys(rowKeys, txs), keys, tickets);
    places := LeftoverPlaces(BilledKeys(rowKeys, txs), keys, tickets);
    AfterRows(rows, rest, tickets, places);
    assert Expected(txs, tickets) == rows + rest;
  }

  // ---- which outcome a row gets ----

  /** Ticket `m` is the first one with the row's key. */
  predicate IsFirstFor(tx: BspTransaction, tickets: seq<Ticket>, m: int) {
    && 0 <= m < |tickets|
    && NormalisedKey(tickets[m].number, tickets[m].issuingAirline) == NormalisedKey(tx.documentNumber, tx.airline)
    && forall j :: 0 <= j < m ==>
         NormalisedKey(tickets[j].number, tickets[j].issuingAirline) != NormalisedKey(tx.documentNumber, tx.airline)
  }

  /** No ticket has the row's key. */
  predicate IsUnknown(tx: BspTransaction, tickets: seq<Ticket>) {
    forall j :: 0 <= j < |tickets| ==>
      NormalisedKey(tickets[j].number, tickets[j].issuingAirline) != NormalisedKey(tx.documentNumber, tx.airline)
  }

  lemma FoundForRow(tx: BspTransaction, tickets: seq<Ticket>)
    ensures var found := FirstWith(KeysOf(tickets), tickets, RowKey(tx));
            && (found.None? <==> IsUnknown(tx, tickets))
            && (forall m :: IsFirstFor(tx, tickets, m) ==> found == Some(tickets[m]))
            && (found.Some? ==> exists m :: IsFirstFor(tx, tickets, m))
  {
    var keys, key := KeysOf(tickets), RowKey(tx);
    assert forall j :: 0 <= j < |keys| ==>
      keys[j] == NormalisedKey(tickets[j].number, tickets[j].issuingAirline);
    FirstWithAbsent(keys, tickets, key);
    if key in keys {
      var m := FoundAt(keys, tickets, key);
      assert forall j :: 0 <= j < m ==> keys[..m][j] == keys[j];
      assert IsFirstFor(tx, tickets, m);
      forall k | IsFirstFor(tx, tickets, k)
        ensures k == m
      {
        assert keys[k] == key && keys[m] == key;
      }
    } else {
      assert forall j :: 0 <= j < |keys| ==> keys[j] in keys;
    }
  }

  predicate SameCurrency(tx: BspTransaction, t: Ticket) {
    t.total.currency == tx.net.currency
  }

  /** At most one whole unit of currency apart. */
  predicate Close(tx: BspTransaction, t: Ticket) {
    -1.0 <= tx.net.amount - t.total.amount <= 1.0
  }

  /** What an item says about the ticket it met. */
  predicate Names(item: Item, t: Ticket) {
    item.internalRefs == [t.id] && item.internalAmount == Some(t.total)
  }

  lemma RowVerdict(tx: BspTransaction, t: Ticket)
    requires tx.kind == Sale
    ensures var item := RowItem(tx, Some(t));
            && Names(item, t)
            && (item.outcome == Matched <==> SameCurrency(tx, t) && Close(tx, t))
            && (item.outcome == Discrepancy <==> SameCurrency(tx, t) && !Close(tx, t))
            && (item.outcome == Tentative <==> !SameCurrency(tx, t))
            && item.outcome != UnmatchedExternal
            && Graded(item)
  {
  }

  /** The confidence and the kind of delta each outcome carries. */
  predicate Graded(item: Item) {
    match item.outcome
    case Matched =>
      && item.confidence == 10_000 && item.delta.Some? && item.externalAmount.Some?
      && item.delta.value == Money(0.0, item.externalAmount.value.currency)
    case Discrepancy =>
      && item.confidence == 8_000 && item.delta.Some? && item.externalAmount.Some? && item.internalAmount.Some?
      && item.delta.value.currency == item.externalAmount.value.currency
      && item.delta.value.amount == item.externalAmount.value.amount - item.internalAmount.value.amount
    case Tentative => item.confidence == 5_000 && item.delta.None?
    case _ => item.confidence == 10_000 && item.delta.None?
  }

  lemma RowUnmatched(tx: BspTransaction, found: Option<Ticket>)
    requires tx.kind != Sale || found.None?
    ensures var item := RowItem(tx, found);
            item.outcome == UnmatchedExternal && item.internalRefs == [] && item.internalAmount.None? && Graded(item)
  {
  }

  /**
   The outcome of every row, from its kind, the keys and the amounts alone: unmatched exactly when it is no sale or
   no ticket has its key; else decided by the first ticket with its key: tentative exactly when the currencies
   differ, matched exactly when they agree and the amounts are within 1, a discrepancy exactly when they agree and
   are further apart.
   */
  lemma OutcomeIff(txs: seq<BspTransaction>, tickets: seq<Ticket>, i: nat)
    requires i < |txs|
    ensures |Expected(txs, tickets)| > i
    ensures var tx, item := txs[i], Expected(txs, tickets)[i];
            && Graded(item)
            && (item.outcome == UnmatchedExternal <==> tx.kind != Sale || IsUnknown(tx, tickets))
            && (item.outcome == UnmatchedExternal ==> item.internalRefs == [] && item.internalAmount.None?)
            && (forall m :: tx.kind == Sale && IsFirstFor(tx, tickets, m) ==>
                  && Names(item, tickets[m])
                  && (item.outcome == Matched <==> SameCurrency(tx, tickets[m]) && Close(tx, tickets[m]))
                  && (item.outcome == Discrepancy <==> SameCurrency(tx, tickets[m]) && !Close(tx, tickets[m]))
                  && (item.outcome == Tentative <==> !SameCurrency(tx, tickets[m])))
  {
    var tx, found := txs[i], FirstWith(KeysOf(tickets), tickets, RowKey(txs[i]));
    assert Expected(txs, tickets)[i] == RowItem(tx, found);
    FoundForRow(tx, tickets);
    if tx.kind == Sale && found.Some? {
      RowVerdict(tx, found.value);
    } else {
      RowUnmatched(tx, found);
    }
  }

  // ---- drift between billed and booked amounts ----

  predicate Compared(item: Item) {
    item.outcome == Matched || item.outcome == Discrepancy
  }

  function Gap(item: Item): real {
    if Compared(item) && item.externalAmount.Some? && item.internalAmount.Some?
    then item.externalAmount.value.amount - item.internalAmount.value.amount else 0.0
  }

  function Recorded(item: Item): real {
    if Compared(item) && item.delta.Some? then item.delta.value.amount else 0.0
  }

  function SumGaps(items: seq<Item>): real {
    if items == [] then 0.0 else SumGaps(items[..|items| - 1]) + Gap(items[|items| - 1])
  }

  function SumRecorded(items: seq<Item>): real {
    if items == [] then 0.0 else SumRecorded(items[..|items| - 1]) + Recorded(items[|items| - 1])
  }

  /** Discrepancies carry their exact gap, larger than the tolerance; matches carry zero for a gap within it. */
  predicate HonestDelta(item: Item) {
    && (item.outcome == Discrepancy ==>
          Recorded(item) == Gap(item) && !(-1.0 <= Gap(item) <= 1.0))
    && (item.outcome == Matched ==> Recorded(item) == 0.0 && -1.0 <= Gap(item) <= 1.0)
  }

  lemma RowDeltaIsHonest(tx: BspTransaction, found: Option<Ticket>)
    ensures HonestDelta(RowItem(tx, found))
  {
  }

  lemma {:induction false} DriftOf(items: seq<Item>)
    requires forall item :: item in items ==> HonestDelta(item)
    ensures -(CountOf(items, Matched) as real) <= SumGaps(items) - SumRecorded(items)
    ensures SumGaps(items) - SumRecorded(items) <= CountOf(items, Matched) as real
  {
    if items != [] {
      var n := |items| - 1;
      assert items[n] in items;
      DriftOf(items[..n]);
    }
  }

  /** Over a whole reconciliation the unrecorded difference is at most one currency unit per matched row. */
  lemma BoundedDrift(txs: seq<BspTransaction>, tickets: seq<Ticket>)
    ensures var items := Expected(txs, tickets);
            var drift := SumGaps(items) - SumRecorded(items);
            && (forall item :: item in items ==> HonestDelta(item))
            && -(CountOf(items, Matched) as real) <= drift <= CountOf(items, Matched) as real
  {
    var keys, rowKeys := KeysOf(tickets), RowKeys(txs);
    var items := Expected(txs, tickets);
    LeftoversAreInternal(BilledKeys(rowKeys, txs), keys, tickets);
    forall i | 0 <= i < |txs|
      ensures HonestDelta(items[i])
    {
      RowDeltaIsHonest(txs[i], FirstWith(keys, tickets, rowKeys[i]));
    }
    DriftOf(items);
  }

  // ---- summary figures ----

  lemma {:induction false} CountsAddUp(items: seq<Item>)
    ensures |items| == CountOf(items, Matched) + CountOf(items, UnmatchedExternal) + CountOf(items, UnmatchedInternal)
                     + CountOf(items, Discrepancy) + CountOf(items, Tentative)
  {
    if items != [] {
      CountsAddUp(items[..|items| - 1]);
    }
  }

  /** External money of matched items in one currency. */
  function SumMatched(items: seq<Item>, currency: string): real {
    if items == [] then 0.0
    else
      var last := items[|items| - 1];
      SumMatched(items[..|items| - 1], currency)
      + if last.outcome == Matched && last.externalAmount.Some? then In(last.externalAmount.value, currency) else 0.0
  }

  lemma {:induction false} NothingMatched(items: seq<Item>, currency: string)
    requires CountOf(items, Matched) == 0
    ensures SumMatched(items, currency) == 0.0
  {
    if items != [] {
      NothingMatched(items[..|items| - 1], currency);
    }
  }

  /** The matched amount is absent exactly when nothing matched, and else totals the matched items of its currency. */
  lemma {:induction false} MatchedMoneyMeaning(items: seq<Item>)
    requires forall item :: item in items && item.outcome == Matched ==> item.externalAmount.Some?
    ensures MatchedMoney(items).None? <==> CountOf(items, Matched) == 0
    ensures MatchedMoney(items).Some? ==>
              MatchedMoney(items).value.amount == SumMatched(items, MatchedMoney(items).value.currency)
  {
    if items != [] {
      var n := |items| - 1;
      MatchedMoneyMeaning(items[..n]);
      assert items[n] in items;
      if MatchedMoney(items[..n]).None? && items[n].outcome == Matched {
        NothingMatched(items[..n], items[n].externalAmount.value.currency);
      }
    }
  }

  lemma {:induction false} MatchedCurrency(items: seq<Item>, currency: string)
    requires forall item :: item in items && item.externalAmount.Some? ==>
               item.externalAmount.value.currency == currency
    ensures MatchedMoney(items).Some? ==> MatchedMoney(items).value.currency == currency
  {
    if items != [] {
      MatchedCurrency(items[..|items| - 1], currency);
      assert items[|items| - 1] in items;
    }
  }

  /** With rows in several currencies the matched amount is in the currency of the first matched item. */
  lemma {:induction false} MatchedInFirstCurrency(items: seq<Item>, k: nat)
    requires k < |items| && items[k].outcome == Matched
    requires forall i :: 0 <= i < k ==> items[i].outcome != Matched
    requires forall item :: item in items && item.outcome == Matched ==> item.externalAmount.Some?
    ensures items[k].externalAmount.Some? && MatchedMoney(items).Some?
    ensures MatchedMoney(items).value.currency == items[k].externalAmount.value.currency
  {
    var n := |items| - 1;
    assert items[k] in items;
    if k < n {
      MatchedInFirstCurrency(items[..n], k);
    } else {
      MatchedMoneyMeaning(items[..n]);
      NoneMatched(items[..n]);
    }
  }

  lemma {:induction false} NoneMatched(items: seq<Item>)
    requires forall i :: 0 <= i < |items| ==> items[i].outcome != Matched
    ensures CountOf(items, Matched) == 0
  {
    if items != [] {
      NoneMatched(items[..|items| - 1]);
    }
  }

  /** For a report in one currency, the figures say exactly what the items hold. */
  lemma SummaryAgrees(txs: seq<BspTransaction>, tickets: seq<Ticket>, currency: string)
    requires forall i :: 0 <= i < |txs| ==> txs[i].net.currency == currency
    ensures var items := Expected(txs, tickets);
            var f := FiguresOf(items);
            && |items| == f.matchedCount + f.unmatchedExternalCount + f.unmatchedInternalCount
                          + f.discrepancyCount + f.tentativeCount
            && f.matchedCount == CountOf(items, Matched) && f.discrepancyCount == CountOf(items, Discrepancy)
            && f.tentativeCount == CountOf(items, Tentative)
            && f.unmatchedExternalCount == CountOf(items, UnmatchedExternal)
            && f.unmatchedInternalCount == CountOf(items, UnmatchedInternal)
            && f.matchedAmount ==
                 if f.matchedCount == 0 then None else Some(Money(SumMatched(items, currency), currency))
  {
    var items := Expected(txs, tickets);
    OneItemPerRow(txs, tickets);
    CountsAddUp(items);
    MatchedMoneyMeaning(items);
    MatchedCurrency(items, currency);
  }

  // ---- keys ----

  lemma {:induction false} OnlyDigitsConcat(a: string, b: string)
    ensures OnlyDigits(a + b) == OnlyDigits(a) + OnlyDigits(b)
  {
    if a == [] {
      assert a + b == b;
    } else {
      assert (a + b)[1..] == a[1..] + b;
      OnlyDigitsConcat(a[1..], b);
    }
  }

  /** A number ending in ten digits is keyed by them, whatever prefix or hyphen stands in front. */
  lemma KeyIsSerialNumber(prefix: string, serial: string, airline: string)
    requires |serial| == 10 && AllDigits(serial)
    ensures NormalisedKey(prefix + serial, airline) == Key(Upper(airline), serial)
  {
    OnlyDigitsConcat(prefix, serial);
    OnlyDigitsOfDigits(serial);
  }

  /** Characters other than digits do not matter, wherever they stand. */
  lemma KeyIgnoresPunctuation(a: string, c: char, b: string, airline: string)
    requires !('0' <= c <= '9')
    ensures NormalisedKey(a + [c] + b, airline) == NormalisedKey(a + b, airline)
  {
    PunctuationDropped(a, c, b);
  }

  lemma PunctuationDropped(a: string, c: char, b: string)
    requires !('0' <= c <= '9')
    ensures OnlyDigits(a + [c] + b) == OnlyDigits(a + b)
  {
    OnlyDigitsConcat(a + [c], b);
    OnlyDigitsConcat(a, [c]);
    OnlyDigitsConcat(a, b);
    assert OnlyDigits([c]) == [] by { assert [c][1..] == []; }
    assert OnlyDigits(a) + [] == OnlyDigits(a);
  }

  /** The same airline but for the case of its letters. */
  predicate SameButCase(a: string, b: string) {
    && |a| == |b|
    && forall i :: 0 <= i < |a| ==>
         || a[i] == b[i]
         || ('a' <= a[i] <= 'z' && 'A' <= b[i] <= 'Z' && a[i] as int - 'a' as int == b[i] as int - 'A' as int)
  }

  lemma KeyIgnoresCase(number: string, a: string, b: string)
    requires SameButCase(a, b)
    ensures NormalisedKey(number, a) == NormalisedKey(number, b)
  {
    assert Upper(a) == Upper(b);
  }

  /** Up to ten digits are all kept, in order. */
  lemma KeyKeepsShortNumbers(number: string, airline: string)
    requires |number| <= 10 && forall i :: 0 <= i < |number| ==> '0' <= number[i] <= '9'
    ensures NormalisedKey(number, airline) == Key(Upper(airline), number)
  {
    OnlyDigitsOfDigits(number);
  }

  /** Numbers ending in ten digits collide exactly when serial and (case-folded) airline agree. */
  lemma KeysCollide(p: string, q: string, s: string, t: string, a: string, b: string)
    requires |s| == |t| == 10 && AllDigits(s) && AllDigits(t)
    ensures NormalisedKey(p + s, a) == NormalisedKey(q + t, b) <==> s == t && Upper(a) == Upper(b)
  {
    KeyIsSerialNumber(p, s, a);
    KeyIsSerialNumber(q, t, b);
  }
}
