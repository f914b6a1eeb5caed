/** Theorems over whole runs of the Amadeus driver, and what a single booking submits. */
module BookingRuns {
  import opened Wrappers
  import opened Canonical
  import opened OfferBooking
  import RetryLoop

  // ---- which offers are booked ----

  /** Place of the first offer with an id. */
  function FirstIndex(offers: seq<Offer>, id: string): (i: nat)
    ensures i <= |offers|
  {
    if offers == [] || offers[0].id == id then 0 else 1 + FirstIndex(offers[1..], id)
  }

  lemma {:induction false} FirstIndexAppend(offers: seq<Offer>, o: Offer, id: string)
    ensures FirstIndex(offers + [o], id) ==
            if id in Ids(offers) then FirstIndex(offers, id)
            else if o.id == id then |offers| else |offers| + 1
    ensures id in Ids(offers) ==> FirstIndex(offers, id) < |offers| && offers[FirstIndex(offers, id)].id == id
  {
    if offers != [] {
      FirstIndexAppend(offers[1..], o, id);
      assert (offers + [o])[1..] == offers[1..] + [o];
      assert Ids(offers) == [offers[0].id] + Ids(offers[1..]);
    }
  }

  /** Membership, position and order of the offers a booking submits. */
  ghost predicate OnePerIdInOrder(r: seq<Offer>, offers: seq<Offer>) {
    && (forall id :: id in Ids(r) <==> id in Ids(offers))
    && (forall k :: 0 <= k < |r| ==>
          FirstIndex(offers, r[k].id) < |offers| && r[k] == offers[FirstIndex(offers, r[k].id)])
    && (forall k, l :: 0 <= k < l < |r| ==> FirstIndex(offers, r[k].id) < FirstIndex(offers, r[l].id))
  }

  /** Exactly one offer per distinct offer id, namely its first occurrence, in order of first occurrence. */
  lemma {:induction false} DistinctIsOnePerId(offers: seq<Offer>)
    ensures OnePerIdInOrder(Distinct(offers), offers)
  {
    if offers != [] {
      var n := |offers| - 1;
      var before, o, r := offers[..n], offers[n], Distinct(offers[..n]);
      DistinctIsOnePerId(before);
      assert offers == before + [o];
      assert Ids(offers) == Ids(before) + [o.id];
      forall id {:trigger FirstIndex(offers, id)}
        ensures FirstIndex(offers, id) ==
                if id in Ids(before) then FirstIndex(before, id) else if o.id == id then n else n + 1
      {
        FirstIndexAppend(before, o, id);
      }
      forall k | 0 <= k < |r|
        ensures FirstIndex(offers, r[k].id) == FirstIndex(before, r[k].id)
      {
        assert Ids(r)[k] in Ids(r);
      }
      if o.id !in Ids(before) {
        assert Ids(r + [o]) == Ids(r) + [o.id];
      } else {
        assert Distinct(offers) == r;
      }
    }
  }

  lemma BookedOffersAgree(offers: seq<Offer>, i: nat, j: nat)
    requires i < |offers| && j < |offers| && offers[i].id == offers[j].id
    requires offers[i] in Distinct(offers) && offers[j] in Distinct(offers)
    ensures offers[i] == offers[j]
  {
    var r := Distinct(offers);
    DistinctIsOnePerId(offers);
    var k :| 0 <= k < |r| && r[k] == offers[i];
    var l :| 0 <= l < |r| && r[l] == offers[j];
    assert FirstIndex(offers, r[k].id) == FirstIndex(offers, r[l].id);
  }

  lemma FirstWithIdIsBooked(offers: seq<Offer>, i: nat)
    requires i < |offers| && forall j :: 0 <= j < |offers| && offers[j].id == offers[i].id ==> offers[j] == offers[i]
    ensures offers[i] in Distinct(offers)
  {
    var r := Distinct(offers);
    DistinctIsOnePerId(offers);
    assert Ids(offers)[i] in Ids(offers);
    var k :| 0 <= k < |r| && Ids(r)[k] == offers[i].id;
    FirstIndexAppend(offers, offers[i], r[k].id);
  }

  predicate SameIdSameOffer(offers: seq<Offer>) {
    forall i, j :: 0 <= i < |offers| && 0 <= j < |offers| && offers[i].id == offers[j].id ==>
      offers[i] == offers[j]
  }

  lemma DistinctIsAllIff(offers: seq<Offer>)
    ensures (forall i :: 0 <= i < |offers| ==> offers[i] in Distinct(offers))
       <==> SameIdSameOffer(offers)
  {
    if forall i :: 0 <= i < |offers| ==> offers[i] in Distinct(offers) {
      forall i, j | 0 <= i < |offers| && 0 <= j < |offers| && offers[i].id == offers[j].id
        ensures offers[i] == offers[j]
      {
        BookedOffersAgree(offers, i, j);
      }
    }
    if SameIdSameOffer(offers) {
      forall i | 0 <= i < |offers|
        ensures offers[i] in Distinct(offers)
      {
        FirstWithIdIsBooked(offers, i);
      }
    }
  }

  /** No two named fares have different cached offers under one offer id. */
  predicate IdsTellOffersApart(cache: map<FareId, Offer>, fareIds: seq<FareId>)
    requires AllCached(cache, fareIds)
  {
    forall f, g :: f in fareIds && g in fareIds && cache[f].id == cache[g].id ==> cache[f] == cache[g]
  }

  /**
   A booking submits the offer of every fare it names exactly when offer ids tell the cached offers of those fares
   apart. Vendor offer ids are only unique within one search response.
   */
  lemma EveryFareBookedIff(cache: map<FareId, Offer>, fareIds: seq<FareId>)
    requires AllCached(cache, fareIds)
    ensures (forall f :: f in fareIds ==> cache[f] in OffersToBook(cache, fareIds))
       <==> IdsTellOffersApart(cache, fareIds)
  {
    var offers := Lookup(cache, fareIds);
    DistinctIsAllIff(offers);
    ByFareOrByPlace(cache, fareIds);
    if forall i :: 0 <= i < |offers| ==> offers[i] in Distinct(offers) {
      forall f | f in fareIds
        ensures cache[f] in Distinct(offers)
      {
        var i :| 0 <= i < |fareIds| && fareIds[i] == f;
        assert offers[i] in Distinct(offers);
      }
    }
    if forall f :: f in fareIds ==> cache[f] in Distinct(offers) {
      forall i | 0 <= i < |offers|
        ensures offers[i] in Distinct(offers)
      {
        assert fareIds[i] in fareIds;
      }
    }
  }

  lemma ByFareOrByPlace(cache: map<FareId, Offer>, fareIds: seq<FareId>)
    requires AllCached(cache, fareIds)
    ensures var offers := Lookup(cache, fareIds);
            IdsTellOffersApart(cache, fareIds) <==>
              SameIdSameOffer(offers)
  {
    var offers := Lookup(cache, fareIds);
    if IdsTellOffersApart(cache, fareIds) {
      forall i, j | 0 <= i < |offers| && 0 <= j < |offers| && offers[i].id == offers[j].id
        ensures offers[i] == offers[j]
      {
        assert fareIds[i] in fareIds && fareIds[j] in fareIds;
      }
    }
    if SameIdSameOffer(offers) {
      forall f, g | f in fareIds && g in fareIds && cache[f].id == cache[g].id
        ensures cache[f] == cache[g]
      {
        var i :| 0 <= i < |fareIds| && fareIds[i] == f;
        var j :| 0 <= j < |fareIds| && fareIds[j] == g;
        assert offers[i] == cache[f] && offers[j] == cache[g];
      }
    }
  }

  // ---- runs ----

  datatype State = State(cache: map<FareId, Offer>, nextFareId: FareId, posts: seq<Post>)

  const INITIAL := State(map[], 0, [])

  datatype Action =
    | SearchOffers(offers: seq<Offer>, totalPax: nat, lost: set<FareId>)
    | CreateBooking(fareIds: seq<FareId>, passengers: nat, world: World)
    | Expire(fare: FareId)

  function Step(s: State, a: Action): State {
    match a
    case SearchOffers(offers, totalPax, lost) =>
      var minted := MintedFares(offers, totalPax, s.nextFareId);
      s.(cache := Stored(s.cache, minted, lost), nextFareId := s.nextFareId + |minted|)
    case CreateBooking(fareIds, passengers, w) =>
      s.(cache := CacheAfterBooking(s.cache, fareIds, passengers, w),
         posts := s.posts + SentPosts(s.cache, fareIds, passengers, w))
    case Expire(fare) => s.(cache := s.cache - {fare})
  }

  /** A sequential run from a fresh driver; entries may expire at any time. */
  predicate IsRun(states: seq<State>, actions: seq<Action>) {
    && |states| == |actions| + 1
    && states[0] == INITIAL
    && forall i :: 0 <= i < |actions| ==> states[i + 1] == Step(states[i], actions[i])
  }

  /** Every cache delete after an order succeeds. */
  predicate DeletesSucceed(actions: seq<Action>) {
    forall i :: 0 <= i < |actions| && actions[i].CreateBooking? ==> actions[i].world.undeleted == {}
  }

  /** The deletes of one fare succeed, whatever happens to the others. */
  predicate DeletesOf(actions: seq<Action>, f: FareId) {
    forall i :: 0 <= i < |actions| && actions[i].CreateBooking? ==> f !in actions[i].world.undeleted
  }

  /** Once ordered, the fare is gone from the cache for good, and in no later booking. */
  predicate Invariant(s: State, f: FareId) {
    && (forall g :: g in s.cache ==> g < s.nextFareId)
    && (forall i :: 0 <= i < |s.posts| && f in s.posts[i].fareIds ==> f < s.nextFareId)
    && (forall i :: 0 <= i < |s.posts| && s.posts[i].ordered && f in s.posts[i].fareIds ==> f !in s.cache)
    && (forall i, j :: 0 <= i < j < |s.posts| && s.posts[i].ordered && f in s.posts[i].fareIds ==>
          f !in s.posts[j].fareIds)
  }

  lemma {:induction false} MintedIdsAreFresh(offers: seq<Offer>, totalPax: nat, firstId: FareId, k: nat)
    requires k < |MintedFares(offers, totalPax, firstId)|
    ensures MintedFares(offers, totalPax, firstId)[k].id == firstId + k
  {
    if offers != [] {
      var n := |offers| - 1;
      var before := MintedFares(offers[..n], totalPax, firstId);
      if k < |before| {
        MintedIdsAreFresh(offers[..n], totalPax, firstId, k);
      }
    }
  }

  lemma {:induction false} StoredKeys(cache: map<FareId, Offer>, fares: seq<Fare>, lost: set<FareId>, f: FareId)
    ensures f in Stored(cache, fares, lost) ==> f in cache || exists k :: 0 <= k < |fares| && fares[k].id == f
  {
    if fares != [] && f in Stored(cache, fares, lost) {
      var n := |fares| - 1;
      StoredKeys(cache, fares[..n], lost, f);
      if f !in cache && f != fares[n].id {
        var k :| 0 <= k < n && fares[..n][k].id == f;
        assert fares[k].id == f;
      }
    }
  }

  lemma SearchKeepsInvariant(s: State, offers: seq<Offer>, totalPax: nat, lost: set<FareId>, f: FareId)
    requires Invariant(s, f)
    ensures Invariant(Step(s, SearchOffers(offers, totalPax, lost)), f)
  {
    var minted := MintedFares(offers, totalPax, s.nextFareId);
    forall g | g in Stored(s.cache, minted, lost)
      ensures g in s.cache || s.nextFareId <= g < s.nextFareId + |minted|
    {
      StoredKeys(s.cache, minted, lost, g);
      if g !in s.cache {
        var k :| 0 <= k < |minted| && minted[k].id == g;
        MintedIdsAreFresh(offers, totalPax, s.nextFareId, k);
      }
    }
  }

  lemma CreateKeepsInvariant(s: State, fareIds: seq<FareId>, passengers: nat, w: World, f: FareId)
    requires Invariant(s, f) && f !in w.undeleted
    ensures Invariant(Step(s, CreateBooking(fareIds, passengers, w)), f)
  {
    if Submits(s.cache, fareIds, passengers, w) {
      var t := Step(s, CreateBooking(fareIds, passengers, w));
      var n := |s.posts|;
      assert t.posts[n].fareIds == fareIds;
      assert forall i :: 0 <= i < n ==> t.posts[i] == s.posts[i];
    }
  }

  lemma {:induction false} RunKeepsInvariant(states: seq<State>, actions: seq<Action>, k: nat, f: FareId)
    requires IsRun(states, actions) && DeletesOf(actions, f) && k < |states|
    ensures Invariant(states[k], f)
  {
    if k > 0 {
      RunKeepsInvariant(states, actions, k - 1, f);
      match actions[k - 1]
      case SearchOffers(offers, totalPax, lost) => SearchKeepsInvariant(states[k - 1], offers, totalPax, lost, f);
      case CreateBooking(fareIds, passengers, w) => CreateKeepsInvariant(states[k - 1], fareIds, passengers, w, f);
      case Expire(_) =>
    }
  }

  /** Once a booking with a fare has been ordered, that fare is in no later booking call, if its own deletes work. */
  lemma FareBookedAtMostOnce(states: seq<State>, actions: seq<Action>, k: nat, i: nat, j: nat, f: FareId)
    requires IsRun(states, actions) && DeletesOf(actions, f) && k < |states|
    requires i < j < |states[k].posts| && states[k].posts[i].ordered
    ensures !(f in states[k].posts[i].fareIds && f in states[k].posts[j].fareIds)
  {
    RunKeepsInvariant(states, actions, k, f);
  }

  /**
   After an order came back, a named fare is still cached exactly when its own delete failed, and the same booking
   can be made again exactly when all its deletes failed.
   */
  lemma OrderedFareStaysIff(s: State, fareIds: seq<FareId>, passengers: nat, w: World)
    requires Submits(s.cache, fareIds, passengers, w) && w.exchange.Answer() != Refused
    ensures var t := Step(s, CreateBooking(fareIds, passengers, w));
            && (forall f :: f in fareIds ==> (f in t.cache <==> f in w.undeleted))
            && (Submits(t.cache, fareIds, passengers, w) <==> forall f :: f in fareIds ==> f in w.undeleted)
  {
    var t := Step(s, CreateBooking(fareIds, passengers, w));
    if AllCached(t.cache, fareIds) {
      forall i | 0 <= i < |fareIds|
        ensures Lookup(t.cache, fareIds)[i] == Lookup(s.cache, fareIds)[i]
      {
        assert fareIds[i] in fareIds;
      }
      assert Lookup(t.cache, fareIds) == Lookup(s.cache, fareIds);
    }
  }

  /** A booking that names any absent fare sends nothing and changes nothing. */
  lemma AbsentFareSendsNothing(s: State, fareIds: seq<FareId>, passengers: nat, w: World, f: FareId)
    requires f in fareIds && f !in s.cache
    ensures Step(s, CreateBooking(fareIds, passengers, w)) == s
  {
    assert !AllCached(s.cache, fareIds);
  }

  // ---- orders at the vendor ----

  /** No booking call loses the answer to an order the vendor made. */
  predicate NothingLost(actions: seq<Action>) {
    forall i :: 0 <= i < |actions| && actions[i].CreateBooking? ==> actions[i].world.exchange.NothingLost()
  }

  lemma {:induction false} OrdersBounded(x: Exchange, n: nat)
    ensures x.OrdersUpTo(n) <= n
  {
    if n > 0 {
      OrdersBounded(x, n - 1);
    }
  }

  /** One `create` can leave up to max(2, maxRetries + 1) orders at the vendor, never more. */
  lemma OrdersOfOneCall(x: Exchange)
    ensures x.Orders() <= x.Attempts() <= RetryLoop.MaxAttempts(x.maxRetries)
  {
    RetryLoop.StopsAtFirstTerminal(x.script, x.maxRetries, 1);
    OrdersBounded(x, x.Attempts());
  }

  lemma {:induction false} NoOrdersBefore(x: Exchange, n: nat)
    requires forall k :: 1 <= k <= n ==> !x.Booked(k)
    ensures x.OrdersUpTo(n) == 0
  {
    if n > 0 {
      NoOrdersBefore(x, n - 1);
    }
  }

  /** If nothing is lost, only the last attempt can have booked, and then an order came back. */
  lemma AnsweredOrders(x: Exchange)
    requires x.NothingLost()
    ensures x.Orders() <= 1
    ensures x.Orders() == 1 ==> x.Answer() != Refused
  {
    var n := x.Attempts();
    RetryLoop.StopsAtFirstTerminal(x.script, x.maxRetries, 1);
    forall k | 1 <= k <= n - 1
      ensures !x.Booked(k)
    {
      assert RetryLoop.Continues(x.script(k), k, x.maxRetries);
    }
    NoOrdersBefore(x, n - 1);
  }

  /** Orders the vendor holds for a fare. */
  function VendorOrders(posts: seq<Post>, f: FareId): nat {
    if posts == [] then 0
    else
      var last := posts[|posts| - 1];
      VendorOrders(posts[..|posts| - 1], f) + if f in last.fareIds then last.vendorOrders else 0
  }

  /** Each booking call left at most one order, and only if one came back. */
  predicate Answered(posts: seq<Post>) {
    forall i :: 0 <= i < |posts| ==> posts[i].vendorOrders <= 1 && (posts[i].vendorOrders == 1 ==> posts[i].ordered)
  }

  lemma {:induction false} RunIsAnswered(states: seq<State>, actions: seq<Action>, k: nat)
    requires IsRun(states, actions) && NothingLost(actions) && k < |states|
    ensures Answered(states[k].posts)
  {
    if k > 0 {
      RunIsAnswered(states, actions, k - 1);
      if actions[k - 1].CreateBooking? {
        AnsweredOrders(actions[k - 1].world.exchange);
      }
    }
  }

  lemma {:induction false} OrdersOfFare(posts: seq<Post>, f: FareId)
    requires Answered(posts)
    requires forall i, j :: 0 <= i < j < |posts| && posts[i].ordered && f in posts[i].fareIds ==> f !in posts[j].fareIds
    ensures VendorOrders(posts, f) <= 1
    ensures VendorOrders(posts, f) == 1 ==> exists i :: 0 <= i < |posts| && posts[i].ordered && f in posts[i].fareIds
  {
    if posts != [] {
      var n := |posts| - 1;
      OrdersOfFare(posts[..n], f);
      if VendorOrders(posts[..n], f) == 1 {
        var i :| 0 <= i < n && posts[..n][i].ordered && f in posts[..n][i].fareIds;
        assert posts[i].ordered && f in posts[i].fareIds;
      }
    }
  }

  /** When no answer is lost and the fare's deletes work, the vendor holds at most one order for it, over every run. */
  lemma VendorHoldsOneOrder(states: seq<State>, actions: seq<Action>, k: nat, f: FareId)
    requires IsRun(states, actions) && DeletesOf(actions, f) && NothingLost(actions) && k < |states|
    ensures VendorOrders(states[k].posts, f) <= 1
  {
    RunKeepsInvariant(states, actions, k, f);
    RunIsAnswered(states, actions, k);
    OrdersOfFare(states[k].posts, f);
  }

  /**
   A call that ends without an order leaves the cache alone, so the same booking can be made again, whatever the
   vendor did.
   */
  lemma UnansweredBookingRepeats(s: State, fareIds: seq<FareId>, passengers: nat, w: World)
    requires Submits(s.cache, fareIds, passengers, w) && w.exchange.Answer() == Refused
    ensures var t := Step(s, CreateBooking(fareIds, passengers, w));
            && t.cache == s.cache
            && Submits(t.cache, fareIds, passengers, w)
            && |t.posts| == |s.posts| + 1 && t.posts[|s.posts|].vendorOrders == w.exchange.Orders()
  {
  }

  // ---- orders at the vendor, whatever it answers ----

  /** Without retries one call leaves at most one order: a second attempt follows only a 401. */
  lemma OneOrderWithoutRetries(x: Exchange)
    requires x.maxRetries == 0 && x.RejectsBadToken()
    ensures x.Orders() <= 1
  {
    var n := x.Attempts();
    RetryLoop.StopsAtFirstTerminal(x.script, 0, 1);
    OrdersBounded(x, 1);
    if n == 2 {
      assert RetryLoop.Continues(x.script(1), 1, 0);
      assert x.OrdersUpTo(1) == x.OrdersUpTo(0) + 0;
    }
  }

  lemma LateOrdersTwice(m: nat)
    requires m >= 1
    ensures Late(m).Answer() == Confirmed && Late(m).Orders() == 2
  {
    var x := Late(m);
    assert RetryLoop.StopFrom(x.script, m, 2) == 2;
    assert x.Attempts() == 2;
    assert x.OrdersUpTo(0) == 0 && x.OrdersUpTo(1) == 1;
  }

  /** One booking call leaves at most one order at the vendor, whatever happens, exactly when retries are off. */
  lemma OneOrderPerCallIff(m: nat)
    ensures m == 0 <==> forall x: Exchange :: x.maxRetries == m && x.RejectsBadToken() ==> x.Orders() <= 1
  {
    if m == 0 {
      forall x: Exchange | x.maxRetries == m && x.RejectsBadToken()
        ensures x.Orders() <= 1
      {
        OneOrderWithoutRetries(x);
      }
    } else {
      LateOrdersTwice(m);
      assert Late(m).maxRetries == m && Late(m).RejectsBadToken();
    }
  }

  /** Every booking call runs with `m` retries. */
  predicate Configured(actions: seq<Action>, m: nat) {
    forall i :: 0 <= i < |actions| && actions[i].CreateBooking? ==>
      actions[i].world.exchange.maxRetries == m && actions[i].world.exchange.RejectsBadToken()
  }

  /** Booking calls that name a fare. */
  function Namings(posts: seq<Post>, f: FareId): nat {
    if posts == [] then 0
    else Namings(posts[..|posts| - 1], f) + if f in posts[|posts| - 1].fareIds then 1 else 0
  }

  lemma AppendPost(posts: seq<Post>, p: Post, f: FareId)
    ensures VendorOrders(posts + [p], f) == VendorOrders(posts, f) + if f in p.fareIds then p.vendorOrders else 0
    ensures Namings(posts + [p], f) == Namings(posts, f) + if f in p.fareIds then 1 else 0
  {
    assert (posts + [p])[..|posts|] == posts;
  }

  /** Without retries, the vendor holds at most as many orders for a fare as there were booking calls naming it. */
  lemma {:induction false} OneOrderPerNaming(states: seq<State>, actions: seq<Action>, k: nat, f: FareId)
    requires IsRun(states, actions) && Configured(actions, 0) && k < |states|
    ensures VendorOrders(states[k].posts, f) <= Namings(states[k].posts, f)
  {
    if k > 0 {
      OneOrderPerNaming(states, actions, k - 1, f);
      var s, a := states[k - 1], actions[k - 1];
      if a.CreateBooking? && Submits(s.cache, a.fareIds, a.passengers, a.world) {
        OneOrderWithoutRetries(a.world.exchange);
        AppendPost(s.posts, SentPosts(s.cache, a.fareIds, a.passengers, a.world)[0], f);
      } else {
        assert states[k].posts == s.posts;
      }
    }
  }

  /** With `m` retries, a fare that at most `n` booking calls name is ordered at most once, whatever the vendor does. */
  ghost predicate OrderedOnce(m: nat, n: nat) {
    forall states: seq<State>, actions: seq<Action>, k: nat, f: FareId ::
      IsRun(states, actions) && Configured(actions, m) && DeletesSucceed(actions)
      && k < |states| && Namings(states[k].posts, f) <= n ==>
        VendorOrders(states[k].posts, f) <= 1
  }

  /**
   The exact guarantee a caller has against double orders: it holds when retries are off and no fare is named in a
   second booking call, and in no other case (but that of naming nothing).
   */
  lemma OrderedOnceIff(m: nat, n: nat)
    ensures OrderedOnce(m, n) <==> n == 0 || (m == 0 && n == 1)
  {
    if n == 0 || (m == 0 && n == 1) {
      forall states: seq<State>, actions: seq<Action>, k: nat, f: FareId |
          IsRun(states, actions) && Configured(actions, m) && DeletesSucceed(actions)
          && k < |states| && Namings(states[k].posts, f) <= n
        ensures VendorOrders(states[k].posts, f) <= 1
      {
        if n == 0 {
          UnnamedHasNoOrders(states[k].posts, f);
        } else {
          OneOrderPerNaming(states, actions, k, f);
        }
      }
    } else {
      var o := Offer("1", [Money(0.0, "USD")], true, "");
      if m >= 1 {
        var states, actions := RetriedRequestOrdersTwice(o, m);
        assert VendorOrders(states[2].posts, 0) == 2;
      } else {
        var states, actions := LostAnswerOrdersTwice(o);
        assert VendorOrders(states[3].posts, 0) == 2;
      }
    }
  }

  lemma {:induction false} UnnamedHasNoOrders(posts: seq<Post>, f: FareId)
    requires Namings(posts, f) == 0
    ensures VendorOrders(posts, f) == 0
  {
    if posts != [] {
      UnnamedHasNoOrders(posts[..|posts| - 1], f);
    }
  }

  // ---- what is not guaranteed ----

  /** A vendor that books and answers at once. */
  const PROMPT := Exchange(_ => RetryLoop.Success, 0, _ => 0.0, _ => true, Confirmed)

  /** A vendor that books, times out on the first attempt, and books again when asked again. */
  function Late(maxRetries: nat): Exchange {
    Exchange(k => if k == 1 then RetryLoop.Unreachable else RetryLoop.Success, maxRetries,
             _ => 0.0, _ => true, Confirmed)
  }

  function Agreeable(exchange: Exchange, undeleted: set<FareId>): World {
    World(o => Some(o), true, exchange, undeleted)
  }

  lemma PromptOrdersOnce()
    ensures PROMPT.Answer() == Confirmed && PROMPT.Orders() == 1 && PROMPT.NothingLost()
  {
    assert PROMPT.Attempts() == 1 && PROMPT.OrdersUpTo(0) == 0;
  }

  lemma LateWithoutRetries()
    ensures Late(0).Answer() == Refused && Late(0).Orders() == 1
  {
    assert Late(0).Attempts() == 1 && Late(0).OrdersUpTo(0) == 0;
  }

  lemma ThreeSteps(s1: State, s2: State, s3: State, a1: Action, a2: Action, a3: Action)
    requires Step(INITIAL, a1) == s1 && Step(s1, a2) == s2 && Step(s2, a3) == s3
    ensures IsRun([INITIAL, s1, s2, s3], [a1, a2, a3])
  {
  }

  lemma TwoSteps(s1: State, s2: State, a1: Action, a2: Action)
    requires Step(INITIAL, a1) == s1 && Step(s1, a2) == s2
    ensures IsRun([INITIAL, s1, s2], [a1, a2])
  {
  }

  /** A search that finds one offer with one traveller. */
  lemma SearchOne(s: State, o: Offer) returns (a: Action)
    requires |o.pricings| == 1
    ensures a.SearchOffers?
    ensures Step(s, a) == State(s.cache[s.nextFareId := o], s.nextFareId + 1, s.posts)
  {
    var fares := MintedFares([o], 1, s.nextFareId);
    assert [o][..0] == [];
    assert MintedFares([], 1, s.nextFareId) == [];
    assert fares == [Fare(s.nextFareId, o.pricings[0], o)];
    assert fares[..0] == [];
    assert Stored(s.cache, [], {}) == s.cache;
    a := SearchOffers([o], 1, {});
  }

  /** A search that finds one offer with two travellers. */
  lemma SearchPair(o: Offer) returns (a: Action)
    requires |o.pricings| == 2
    ensures a.SearchOffers?
    ensures Step(INITIAL, a) == State(map[0 := o, 1 := o], 2, [])
  {
    var fares := MintedFares([o], 2, 0);
    assert [o][..0] == [];
    assert MintedFares([], 2, 0) == [];
    assert fares == OfferFares(o, 0);
    assert fares == [Fare(0, o.pricings[0], o), Fare(1, o.pricings[1], o)];
    assert fares[..1] == [fares[0]];
    assert [fares[0]][..0] == [];
    assert Stored(map[], [fares[0]], {}) == map[0 := o];
    a := SearchOffers([o], 2, {});
  }

  /** A booking call of the given fares, run with `m` retries. */
  predicate Books(a: Action, fareIds: seq<FareId>, m: nat, undeleted: set<FareId>) {
    && a.CreateBooking? && a.fareIds == fareIds && a.world.undeleted == undeleted
    && a.world.exchange.maxRetries == m && a.world.exchange.RejectsBadToken()
  }

  /** Booking fares that share one offer id, with everything but the vendor's answer agreeable. */
  lemma BookSameId(s: State, fareIds: seq<FareId>, offer: Offer, x: Exchange, undeleted: set<FareId>)
    requires fareIds != [] && AllCached(s.cache, fareIds) && OffersToBook(s.cache, fareIds) == [offer]
    ensures Step(s, CreateBooking(fareIds, 1, Agreeable(x, undeleted))) == State(
              if x.Answer() != Refused then Deleted(s.cache, fareIds, undeleted) else s.cache, s.nextFareId,
              s.posts + [Post(fareIds, [offer], x.Answer() != Refused, x.Orders())])
  {
    assert Repriced(Agreeable(x, undeleted), [offer]) == [offer];
    assert Submits(s.cache, fareIds, 1, Agreeable(x, undeleted));
  }

  lemma OneOfferToBook(cache: map<FareId, Offer>, f: FareId)
    requires f in cache
    ensures AllCached(cache, [f]) && OffersToBook(cache, [f]) == [cache[f]]
  {
    assert Lookup(cache, [f]) == [cache[f]];
    DistinctOfOne(cache[f]);
  }

  lemma DistinctOfOne(a: Offer)
    ensures Distinct([a]) == [a]
  {
    assert [a][..0] == [];
  }

  lemma DistinctOfPair(a: Offer, b: Offer)
    requires a.id == b.id
    ensures Distinct([a, b]) == [a]
  {
    assert [a, b][..1] == [a];
    assert Ids([a])[0] == a.id;
    DistinctOfOne(a);
  }

  lemma PairToBook(cache: map<FareId, Offer>, f: FareId, g: FareId)
    requires f in cache && g in cache && cache[f].id == cache[g].id
    ensures AllCached(cache, [f, g]) && OffersToBook(cache, [f, g]) == [cache[f]]
  {
    assert Lookup(cache, [f, g]) == [cache[f], cache[g]];
    DistinctOfPair(cache[f], cache[g]);
  }

  /** The vendor books and answers. */
  lemma BookPrompt(s: State, fareIds: seq<FareId>, offer: Offer, undeleted: set<FareId>) returns (a: Action)
    requires fareIds != [] && AllCached(s.cache, fareIds) && OffersToBook(s.cache, fareIds) == [offer]
    ensures Books(a, fareIds, 0, undeleted) && a.world.exchange.NothingLost()
    ensures Step(s, a)
         == State(Deleted(s.cache, fareIds, undeleted), s.nextFareId, s.posts + [Post(fareIds, [offer], true, 1)])
  {
    PromptOrdersOnce();
    BookSameId(s, fareIds, offer, PROMPT, undeleted);
    a := CreateBooking(fareIds, 1, Agreeable(PROMPT, undeleted));
  }

  /** The vendor books but the answer is late: without retries no order comes back. */
  lemma BookLate(s: State, f: FareId) returns (a: Action)
    requires f in s.cache
    ensures Books(a, [f], 0, {})
    ensures Step(s, a) == State(s.cache, s.nextFareId, s.posts + [Post([f], [s.cache[f]], false, 1)])
  {
    OneOfferToBook(s.cache, f);
    LateWithoutRetries();
    BookSameId(s, [f], s.cache[f], Late(0), {});
    a := CreateBooking([f], 1, Agreeable(Late(0), {}));
  }

  /** The same with retries: the second request books again. */
  lemma BookLateAgain(s: State, f: FareId, m: nat) returns (a: Action)
    requires f in s.cache && m >= 1
    ensures Books(a, [f], m, {})
    ensures Step(s, a)
         == State(Deleted(s.cache, [f], {}), s.nextFareId, s.posts + [Post([f], [s.cache[f]], true, 2)])
  {
    OneOfferToBook(s.cache, f);
    LateOrdersTwice(m);
    BookSameId(s, [f], s.cache[f], Late(m), {});
    a := CreateBooking([f], 1, Agreeable(Late(m), {}));
  }

  /** With a failed delete the same fare is ordered twice. */
  lemma FailedDeleteBooksTwice(o: Offer) returns (states: seq<State>, actions: seq<Action>)
    requires |o.pricings| == 1
    ensures IsRun(states, actions) && NothingLost(actions) && |states| == 4
    ensures states[3].posts == [Post([0], [o], true, 1), Post([0], [o], true, 1)]
  {
    var post := Post([0], [o], true, 1);
    var s1, s2, s3 := State(map[0 := o], 1, []), State(map[0 := o], 1, [post]), State(map[0 := o], 1, [post, post]);
    assert Deleted(s1.cache, [0], {0}) == s1.cache;
    OneOfferToBook(s1.cache, 0);
    var a1 := SearchOne(INITIAL, o);
    var a2 := BookPrompt(s1, [0], o, {0});
    var a3 := BookPrompt(s2, [0], o, {0});
    assert s1.posts + [post] == s2.posts && s2.posts + [post] == s3.posts;
    ThreeSteps(s1, s2, s3, a1, a2, a3);
    states, actions := [INITIAL, s1, s2, s3], [a1, a2, a3];
  }

  /** A sibling fare of an ordered offer stays bookable: the same offer is ordered twice with all deletes working. */
  lemma SiblingFareBooksOfferTwice(o: Offer) returns (states: seq<State>, actions: seq<Action>)
    requires |o.pricings| == 2
    ensures IsRun(states, actions) && DeletesSucceed(actions) && NothingLost(actions) && |states| == 4
    ensures states[3].posts == [Post([0], [o], true, 1), Post([1], [o], true, 1)]
  {
    var post0, post1 := Post([0], [o], true, 1), Post([1], [o], true, 1);
    var s1, s2 := State(map[0 := o, 1 := o], 2, []), State(map[1 := o], 2, [post0]);
    var s3 := State(map[], 2, [post0, post1]);
    assert Deleted(s1.cache, [0], {}) == s2.cache && Deleted(s2.cache, [1], {}) == s3.cache;
    OneOfferToBook(s1.cache, 0);
    OneOfferToBook(s2.cache, 1);
    var a1 := SearchPair(o);
    var a2 := BookPrompt(s1, [0], o, {});
    var a3 := BookPrompt(s2, [1], o, {});
    assert s1.posts + [post0] == s2.posts && s2.posts + [post1] == s3.posts;
    ThreeSteps(s1, s2, s3, a1, a2, a3);
    states, actions := [INITIAL, s1, s2, s3], [a1, a2, a3];
  }

  /** One timed-out request that the vendor carried out is sent again: with any retries one `create` orders twice. */
  lemma RetriedRequestOrdersTwice(o: Offer, m: nat) returns (states: seq<State>, actions: seq<Action>)
    requires |o.pricings| == 1 && m >= 1
    ensures IsRun(states, actions) && DeletesSucceed(actions) && Configured(actions, m) && |states| == 3
    ensures states[2].posts == [Post([0], [o], true, 2)]
    ensures Namings(states[2].posts, 0) == 1 && VendorOrders(states[2].posts, 0) == 2
  {
    var post := Post([0], [o], true, 2);
    var s1, s2 := State(map[0 := o], 1, []), State(map[], 1, [post]);
    assert Deleted(s1.cache, [0], {}) == s2.cache;
    var a1 := SearchOne(INITIAL, o);
    var a2 := BookLateAgain(s1, 0, m);
    assert s1.posts + [post] == s2.posts;
    AppendPost([], post, 0);
    TwoSteps(s1, s2, a1, a2);
    states, actions := [INITIAL, s1, s2], [a1, a2];
  }

  /** An exhausted timeout leaves the fare cached, so without any retries a second `create` orders it again. */
  lemma LostAnswerOrdersTwice(o: Offer) returns (states: seq<State>, actions: seq<Action>)
    requires |o.pricings| == 1
    ensures IsRun(states, actions) && DeletesSucceed(actions) && Configured(actions, 0) && |states| == 4
    ensures states[3].posts == [Post([0], [o], false, 1), Post([0], [o], true, 1)]
    ensures Namings(states[3].posts, 0) == VendorOrders(states[3].posts, 0) == 2
  {
    var post0, post1 := Post([0], [o], false, 1), Post([0], [o], true, 1);
    var s1, s2, s3 := State(map[0 := o], 1, []), State(map[0 := o], 1, [post0]), State(map[], 1, [post0, post1]);
    assert Deleted(s2.cache, [0], {}) == s3.cache;
    OneOfferToBook(s2.cache, 0);
    var a1 := SearchOne(INITIAL, o);
    var a2 := BookLate(s1, 0);
    var a3 := BookPrompt(s2, [0], o, {});
    assert s1.posts + [post0] == s2.posts && s2.posts + [post1] == s3.posts;
    AppendPost([], post0, 0);
    AppendPost([post0], post1, 0);
    ThreeSteps(s1, s2, s3, a1, a2, a3);
    states, actions := [INITIAL, s1, s2, s3], [a1, a2, a3];
  }

  /**
   Two searches may both call an offer "1". Booking a fare of each orders only the first offer, reports success, and
   drops both fares from the cache, so the second is neither booked nor bookable.
   */
  lemma SameIdFromTwoSearches(a: Offer, b: Offer) returns (states: seq<State>, actions: seq<Action>)
    requires a.id == b.id && a != b && |a.pricings| == |b.pricings| == 1
    ensures IsRun(states, actions) && DeletesSucceed(actions) && NothingLost(actions) && |states| == 4
    ensures states[2].cache == map[0 := a, 1 := b] && actions[2].CreateBooking? && actions[2].fareIds == [0, 1]
    ensures states[3].posts == [Post([0, 1], [a], true, 1)] && states[3].cache == map[]
  {
    var post := Post([0, 1], [a], true, 1);
    var s1, s2, s3 := State(map[0 := a], 1, []), State(map[0 := a, 1 := b], 2, []), State(map[], 2, [post]);
    assert Deleted(s2.cache, [0, 1], {}) == s3.cache;
    PairToBook(s2.cache, 0, 1);
    var a1 := SearchOne(INITIAL, a);
    var a2 := SearchOne(s1, b);
    var a3 := BookPrompt(s2, [0, 1], a, {});
    assert s2.posts + [post] == s3.posts;
    ThreeSteps(s1, s2, s3, a1, a2, a3);
    states, actions := [INITIAL, s1, s2, s3], [a1, a2, a3];
  }

  // ---- what a booking submits ----

  /** The offers a booking call carries are, one by one and in order, what re-pricing returned for those to book. */
  lemma SubmittedAreRepriced(cache: map<FareId, Offer>, fareIds: seq<FareId>, passengers: nat, w: World)
    requires Submits(cache, fareIds, passengers, w)
    ensures var posts, toBook := SentPosts(cache, fareIds, passengers, w), OffersToBook(cache, fareIds);
            && |posts| == 1 && posts[0].fareIds == fareIds && |posts[0].offers| == |toBook|
            && forall i :: 0 <= i < |toBook| ==> w.reprice(toBook[i]) == Some(posts[0].offers[i])
  {
  }

  // ---- what a search caches and returns ----

  /** After a search every minted fare whose store worked finds its offer, and all other entries are untouched. */
  lemma {:induction false} CachedAfterSearch(cache: map<FareId, Offer>, fares: seq<Fare>, lost: set<FareId>, f: FareId)
    requires forall i, j :: 0 <= i < j < |fares| ==> fares[i].id != fares[j].id
    ensures forall k :: 0 <= k < |fares| && fares[k].id == f && f !in lost ==>
              f in Stored(cache, fares, lost) && Stored(cache, fares, lost)[f] == fares[k].offer
    ensures (f in lost || forall k :: 0 <= k < |fares| ==> fares[k].id != f) ==>
              (f in Stored(cache, fares, lost) <==> f in cache)
              && (f in cache ==> Stored(cache, fares, lost)[f] == cache[f])
  {
    if fares != [] {
      var n := |fares| - 1;
      CachedAfterSearch(cache, fares[..n], lost, f);
    }
  }

  /** A search mints fares only for offers that price at least one traveller and no more than were asked for. */
  lemma {:induction false} MintedFromPriced(offers: seq<Offer>, totalPax: nat, firstId: FareId, k: nat)
    requires k < |MintedFares(offers, totalPax, firstId)|
    ensures var fare := MintedFares(offers, totalPax, firstId)[k];
            && fare.offer in offers && 1 <= |fare.offer.pricings| <= totalPax
            && fare.total in fare.offer.pricings && fare.id == firstId + k
  {
    var n := |offers| - 1;
    var before := MintedFares(offers[..n], totalPax, firstId);
    MintedIdsAreFresh(offers, totalPax, firstId, k);
    if k < |before| {
      MintedFromPriced(offers[..n], totalPax, firstId, k);
      assert MintedFares(offers, totalPax, firstId)[k] == before[k];
    }
  }

  /** Every such offer gets a fare for each of its travellers. */
  lemma {:induction false} PricedOffersAreMinted(offers: seq<Offer>, totalPax: nat, firstId: FareId, i: nat, k: nat)
    returns (at: nat)
    requires i < |offers| && k < |offers[i].pricings| <= totalPax
    ensures var minted := MintedFares(offers, totalPax, firstId);
            at < |minted| && minted[at].total == offers[i].pricings[k] && minted[at].offer == offers[i]
  {
    var n := |offers| - 1;
    if i < n {
      at := PricedOffersAreMinted(offers[..n], totalPax, firstId, i, k);
    } else {
      at := |MintedFares(offers[..n], totalPax, firstId)| + k;
    }
  }

  /** Within the limit: the same currency and no more than it. */
  predicate WithinLimit(total: Money, limit: Option<Money>) {
    limit.None? || (total.currency == limit.value.currency && total.amount <= limit.value.amount)
  }

  predicate Increasing(fares: seq<Fare>) {
    forall i, j :: 0 <= i < j < |fares| ==> fares[i].id < fares[j].id
  }

  lemma {:induction false} AffordableMeaning(fares: seq<Fare>, maxPrice: Option<Money>)
    ensures forall f :: f in AffordableOf(fares, maxPrice) <==> f in fares && WithinLimit(f.total, maxPrice)
  {
    if fares != [] {
      var n := |fares| - 1;
      AffordableMeaning(fares[..n], maxPrice);
      assert fares == fares[..n] + [fares[n]];
    }
  }

  lemma {:induction false} AffordableInOrder(fares: seq<Fare>, maxPrice: Option<Money>)
    requires Increasing(fares)
    ensures Increasing(AffordableOf(fares, maxPrice))
  {
    if fares != [] {
      var n := |fares| - 1;
      var before := AffordableOf(fares[..n], maxPrice);
      AffordableInOrder(fares[..n], maxPrice);
      AffordableMeaning(fares[..n], maxPrice);
      forall i | 0 <= i < |before|
        ensures before[i].id < fares[n].id
      {
        assert before[i] in before;
        var k :| 0 <= k < n && fares[..n][k] == before[i];
        assert fares[k].id < fares[n].id;
      }
    }
  }

  /**
   A search returns at most `maxResults` of the minted fares, all within the price limit, in the order they were
   minted; a fare within the limit is withheld only when the cap is reached, and then it comes after all returned.
   */
  lemma SearchResults(offers: seq<Offer>, totalPax: nat, firstId: FareId, maxPrice: Option<Money>, maxResults: nat)
    ensures var minted := MintedFares(offers, totalPax, firstId);
            var r := Truncated(AffordableOf(minted, maxPrice), maxResults);
            && |r| <= maxResults && Increasing(r)
            && (forall f :: f in r ==> f in minted && WithinLimit(f.total, maxPrice))
            && (forall f :: f in minted && WithinLimit(f.total, maxPrice) && f !in r ==>
                  |r| == maxResults && forall g :: g in r ==> g.id < f.id)
  {
    var minted := MintedFares(offers, totalPax, firstId);
    var affordable := AffordableOf(minted, maxPrice);
    MintedInOrder(offers, totalPax, firstId);
    var r := Truncated(affordable, maxResults);
    AffordableMeaning(minted, maxPrice);
    AffordableInOrder(minted, maxPrice);
    forall f | f in minted && WithinLimit(f.total, maxPrice) && f !in r
      ensures |r| == maxResults && forall g :: g in r ==> g.id < f.id
    {
      assert f in affordable;
      var j :| 0 <= j < |affordable| && affordable[j] == f;
      assert forall i :: 0 <= i < |r| ==> r[i] == affordable[i] && r[i] in r;
      assert j >= |r|;
    }
  }

  /** Minted fares are in increasing order of id. */
  lemma MintedInOrder(offers: seq<Offer>, totalPax: nat, firstId: FareId)
    ensures Increasing(MintedFares(offers, totalPax, firstId))
  {
    var minted := MintedFares(offers, totalPax, firstId);
    forall k | 0 <= k < |minted|
      ensures minted[k].id == firstId + k
    {
      MintedIdsAreFresh(offers, totalPax, firstId, k);
    }
  }
}
