/**
 Amadeus fare search and booking over the offer cache.

 `Driver` is the object with its cache. `Step` in BookingRuns.dfy is the same on values, built from the functions
 that specify the methods here, for whole sequential runs of searches, bookings and cache expiries. Fare ids are
 fresh: they are minted from a counter.
 */
module OfferBooking {
  import opened Wrappers
  import opened Canonical
  import RetryLoop

  type FareId = nat

  /**
   A vendor offer: its id, one price per traveller, whether its fields can be mapped at all, and the raw JSON the
   cache holds, which is what is booked.
   */
  datatype Offer = Offer(id: string, pricings: seq<Money>, mappable: bool, raw: string)

  datatype Fare = Fare(id: FareId, total: Money, offer: Offer)

  // ---- search criteria ----

  datatype Passengers = Passengers(adults: nat, children: nat, infants: nat, seniors: nat) {
    function Total(): nat {
      adults + children + infants + seniors
    }

    /** The numbers sent to the vendor: seniors count as adults, and at least one adult is sent. */
    function AdultsSent(): nat {
      if adults + seniors > 0 then adults + seniors else if adults > 1 then adults else 1
    }

    function TravellersSent(): nat {
      AdultsSent() + children + infants
    }
  }

  /** Offers whose traveller count cannot be lined up with the requested passengers are skipped. */
  predicate Kept(o: Offer, totalPax: nat) {
    1 <= |o.pricings| <= totalPax
  }

  // ---- what a search mints ----

  function OfferFares(o: Offer, firstId: FareId): (fares: seq<Fare>)
    ensures |fares| == |o.pricings|
    ensures forall k :: 0 <= k < |fares| ==> fares[k] == Fare(firstId + k, o.pricings[k], o)
  {
    seq(|o.pricings|, k requires 0 <= k < |o.pricings| => Fare(firstId + k, o.pricings[k], o))
  }

  function MintedFares(offers: seq<Offer>, totalPax: nat, firstId: FareId): seq<Fare> {
    if offers == [] then []
    else
      var n := |offers| - 1;
      var before := MintedFares(offers[..n], totalPax, firstId);
      before + if Kept(offers[n], totalPax) then OfferFares(offers[n], firstId + |before|) else []
  }

  /** A vendor answer that prices each traveller it was asked for. */
  predicate FullyPriced(offers: seq<Offer>, p: Passengers) {
    forall i :: 0 <= i < |offers| ==> |offers[i].pricings| == p.TravellersSent()
  }

  /** Without an adult or senior the vendor prices one traveller too many, and the whole search comes back empty. */
  lemma {:induction false} NothingMinted(offers: seq<Offer>, p: Passengers, firstId: FareId)
    requires FullyPriced(offers, p) && p.adults + p.seniors == 0
    ensures MintedFares(offers, p.Total(), firstId) == []
  {
    if offers != [] {
      NothingMinted(offers[..|offers| - 1], p, firstId);
    }
  }

  function CountTravellers(offers: seq<Offer>): nat {
    if offers == [] then 0 else CountTravellers(offers[..|offers| - 1]) + |offers[|offers| - 1].pricings|
  }

  /** With one, every offer is kept: one fare per traveller. */
  lemma {:induction false} EverythingMinted(offers: seq<Offer>, p: Passengers, firstId: FareId)
    requires FullyPriced(offers, p) && p.adults + p.seniors > 0
    ensures |MintedFares(offers, p.Total(), firstId)| == CountTravellers(offers) >= |offers|
  {
    if offers != [] {
      EverythingMinted(offers[..|offers| - 1], p, firstId);
    }
  }

  lemma {:induction false} TravellerHasFare(offers: seq<Offer>, p: Passengers, firstId: FareId, i: nat, k: nat)
    returns (at: nat)
    requires FullyPriced(offers, p) && p.adults + p.seniors > 0 && i < |offers| && k < |offers[i].pricings|
    ensures var minted := MintedFares(offers, p.Total(), firstId);
            at < |minted| && minted[at].total == offers[i].pricings[k] && minted[at].offer == offers[i]
  {
    var n := |offers| - 1;
    if i < n {
      at := TravellerHasFare(offers[..n], p, firstId, i, k);
    } else {
      at := |MintedFares(offers[..n], p.Total(), firstId)| + k;
    }
  }

  predicate HasFare(fares: seq<Fare>, o: Offer, price: Money) {
    exists j :: 0 <= j < |fares| && fares[j].offer == o && fares[j].total == price
  }

  /**
   When the vendor prices every traveller it was sent, a search finds something exactly when an adult or senior
   travels, and then it finds every traveller of every offer.
   */
  lemma SearchAlignment(offers: seq<Offer>, p: Passengers, firstId: FareId)
    requires FullyPriced(offers, p) && offers != []
    ensures var minted := MintedFares(offers, p.Total(), firstId);
            && (minted != [] <==> p.adults + p.seniors > 0)
            && p.TravellersSent() == p.Total() + (if p.adults + p.seniors > 0 then 0 else 1)
            && (minted != [] ==> |minted| == CountTravellers(offers))
            && (minted != [] ==> forall i, k :: 0 <= i < |offers| && 0 <= k < |offers[i].pricings| ==>
                  HasFare(minted, offers[i], offers[i].pricings[k]))
  {
    if p.adults + p.seniors == 0 {
      NothingMinted(offers, p, firstId);
    } else {
      EverythingMinted(offers, p, firstId);
      forall i, k | 0 <= i < |offers| && 0 <= k < |offers[i].pricings|
        ensures HasFare(MintedFares(offers, p.Total(), firstId), offers[i], offers[i].pricings[k])
      {
        var at := TravellerHasFare(offers, p, firstId, i, k);
      }
    }
  }

  /** The cache after storing each fare's offer, except where the store failed. */
  function Stored(cache: map<FareId, Offer>, fares: seq<Fare>, lost: set<FareId>): map<FareId, Offer> {
    if fares == [] then cache
    else
      var last := fares[|fares| - 1];
      var before := Stored(cache, fares[..|fares| - 1], lost);
      if last.id in lost then before else before[last.id := last.offer]
  }

  predicate Affordable(f: Fare, maxPrice: Option<Money>) {
    maxPrice.Some? ==> f.total.currency == maxPrice.value.currency && f.total.amount <= maxPrice.value.amount
  }

  function AffordableOf(fares: seq<Fare>, maxPrice: Option<Money>): seq<Fare> {
    if fares == [] then []
    else
      var n := |fares| - 1;
      AffordableOf(fares[..n], maxPrice) + if Affordable(fares[n], maxPrice) then [fares[n]] else []
  }

  function Truncated(fares: seq<Fare>, maxResults: nat): seq<Fare> {
    if |fares| > maxResults then fares[..maxResults] else fares
  }

  datatype SearchError = BadMaxResults | UnmappableOffer

  // ---- which offers a booking submits ----

  function Ids(offers: seq<Offer>): (ids: seq<string>)
    ensures |ids| == |offers|
    ensures forall i :: 0 <= i < |offers| ==> ids[i] == offers[i].id
  {
    seq(|offers|, i requires 0 <= i < |offers| => offers[i].id)
  }

  /** One offer per distinct offer id, in order of first occurrence. */
  function Distinct(offers: seq<Offer>): seq<Offer> {
    if offers == [] then []
    else
      var n := |offers| - 1;
      Distinct(offers[..n]) + if offers[n].id in Ids(offers[..n]) then [] else [offers[n]]
  }

  function Lookup(cache: map<FareId, Offer>, fareIds: seq<FareId>): (offers: seq<Offer>)
    requires forall f :: f in fareIds ==> f in cache
    ensures |offers| == |fareIds|
    ensures forall i :: 0 <= i < |fareIds| ==> offers[i] == cache[fareIds[i]]
  {
    seq(|fareIds|, i requires 0 <= i < |fareIds| => assert fareIds[i] in fareIds; cache[fareIds[i]])
  }

  predicate AllCached(cache: map<FareId, Offer>, fareIds: seq<FareId>) {
    forall f :: f in fareIds ==> f in cache
  }

  datatype BookingError =
    | NoFares | NoPassengers | NotCached(fare: FareId) | RepriceFailed | BadPassenger | NoOrder | UnmappableOrder

  /** What a booking call brings back: nothing usable, an order that cannot be mapped, or a good order. */
  datatype Reply = Refused | Garbled | Confirmed

  /**
   The vendor's side of one booking call, which the request loop may turn into several requests: the outcome of
   each attempt, the attempts that left an order at the vendor, and what a successful answer holds.
   */
  datatype Exchange = Exchange(
    script: RetryLoop.Script, maxRetries: nat, draw: nat -> real, books: nat -> bool, body: Reply)
  {
    function Attempts(): nat {
      RetryLoop.StopFrom(script, maxRetries, 1)
    }

    function Answer(): Reply {
      if script(Attempts()).Success? then body else Refused
    }

    /** Attempt `k` reached the vendor and left an order there, whether or not an answer came back. */
    predicate Booked(k: nat) {
      !script(k).NoToken? && books(k)
    }

    /** Orders the first `n` attempts left at the vendor. */
    function OrdersUpTo(n: nat): nat {
      if n == 0 then 0 else OrdersUpTo(n - 1) + if Booked(n) then 1 else 0
    }

    function Orders(): nat {
      OrdersUpTo(Attempts())
    }

    /** A first request turned away with 401 leaves no order. */
    predicate RejectsBadToken() {
      script(1).Unauthorised? ==> !Booked(1)
    }

    /** Every order made at the vendor comes back as an answer that holds it. */
    predicate NothingLost() {
      forall k :: 1 <= k <= Attempts() && Booked(k) ==> script(k).Success? && body != Refused
    }
  }

  /** What a booking meets outside the driver: re-pricing, passenger data, the vendor, failing cache deletes. */
  datatype World = World(
    reprice: Offer -> Option<Offer>, passengersOk: bool, exchange: Exchange, undeleted: set<FareId>)

  predicate Reprices(w: World, offers: seq<Offer>) {
    forall i :: 0 <= i < |offers| ==> w.reprice(offers[i]).Some?
  }

  function Repriced(w: World, offers: seq<Offer>): (r: seq<Offer>)
    requires Reprices(w, offers)
    ensures |r| == |offers|
  {
    seq(|offers|, i requires 0 <= i < |offers| => w.reprice(offers[i]).value)
  }

  /** A booking call that was made, whether an order came back, and how many orders the vendor then holds for it. */
  datatype Post = Post(fareIds: seq<FareId>, offers: seq<Offer>, ordered: bool, vendorOrders: nat)

  /** The offers a booking submits, before re-pricing. */
  function OffersToBook(cache: map<FareId, Offer>, fareIds: seq<FareId>): seq<Offer>
    requires AllCached(cache, fareIds)
  {
    Distinct(Lookup(cache, fareIds))
  }

  /** The booking reaches its POST. */
  predicate Submits(cache: map<FareId, Offer>, fareIds: seq<FareId>, passengers: nat, w: World) {
    && fareIds != [] && passengers > 0
    && AllCached(cache, fareIds)
    && Reprices(w, OffersToBook(cache, fareIds))
    && w.passengersOk
  }

  /** The first named fare that has no cached offer. */
  predicate FirstAbsent(cache: map<FareId, Offer>, fareIds: seq<FareId>, f: FareId) {
    f !in cache && exists i :: 0 <= i < |fareIds| && fareIds[i] == f && AllCached(cache, fareIds[..i])
  }

  /** The one error a booking ends in: the checks in their order, then what the vendor answered. */
  predicate FailsWith(cache: map<FareId, Offer>, fareIds: seq<FareId>, passengers: nat, w: World, e: BookingError) {
    match e
    case NoFares => fareIds == []
    case NoPassengers => fareIds != [] && passengers == 0
    case NotCached(f) => passengers > 0 && FirstAbsent(cache, fareIds, f)
    case RepriceFailed =>
      fareIds != [] && passengers > 0 && AllCached(cache, fareIds) && !Reprices(w, OffersToBook(cache, fareIds))
    case BadPassenger =>
      && fareIds != [] && passengers > 0 && AllCached(cache, fareIds) && Reprices(w, OffersToBook(cache, fareIds))
      && !w.passengersOk
    case NoOrder => Submits(cache, fareIds, passengers, w) && w.exchange.Answer() == Refused
    case UnmappableOrder => Submits(cache, fareIds, passengers, w) && w.exchange.Answer() == Garbled
  }

  function Deleted(cache: map<FareId, Offer>, fareIds: seq<FareId>, undeleted: set<FareId>): map<FareId, Offer> {
    map f | f in cache && (f !in fareIds || f in undeleted) :: cache[f]
  }

  // ---- the driver ----

  class Driver {
    var offerCache: map<FareId, Offer>
    var nextFareId: FareId
    ghost var posts: seq<Post>

    constructor ()
      ensures offerCache == map[] && nextFareId == 0 && posts == []
    {
      offerCache, nextFareId := map[], 0;
      posts := [];
    }

    method Search(offers: seq<Offer>, passengers: Passengers, maxPrice: Option<Money>, maxResults: nat,
                  lost: set<FareId>)
      returns (r: Result<seq<Fare>, SearchError>)
      requires passengers.Total() >= 1
      modifies this`offerCache, this`nextFareId
      ensures r.Ok? <==>
                1 <= maxResults <= 250 && forall o :: o in offers && Kept(o, passengers.Total()) ==> o.mappable
      ensures r == Err(BadMaxResults) ==> offerCache == old(offerCache) && nextFareId == old(nextFareId)
      ensures r.Ok? ==>
                var minted := MintedFares(offers, passengers.Total(), old(nextFareId));
                && r.value == Truncated(AffordableOf(minted, maxPrice), maxResults)
                && offerCache == Stored(old(offerCache), minted, lost)
                && nextFareId == old(nextFareId) + |minted|
      ensures r == Err(UnmappableOffer) ==>
                exists i ::
                  && 0 <= i < |offers| && !offers[i].mappable && Kept(offers[i], passengers.Total())
                  && (forall j :: 0 <= j < i && Kept(offers[j], passengers.Total()) ==> offers[j].mappable)
                  && var minted := MintedFares(offers[..i], passengers.Total(), old(nextFareId));
                     && offerCache == Stored(old(offerCache), minted, lost)
                     && nextFareId == old(nextFareId) + |minted|
    {
      if !(1 <= maxResults <= 250) {
        return Err(BadMaxResults);
      }
      var totalPax := passengers.Total();
      var fares: seq<Fare> := [];
      for i := 0 to |offers|
        invariant fares == MintedFares(offers[..i], totalPax, old(nextFareId))
        invariant forall j :: 0 <= j < i && Kept(offers[j], totalPax) ==> offers[j].mappable
        invariant offerCache == Stored(old(offerCache), fares, lost)
        invariant nextFareId == old(nextFareId) + |fares|
      {
        assert offers[..i + 1][..i] == offers[..i];
        if Kept(offers[i], totalPax) {
          if !offers[i].mappable {
            return Err(UnmappableOffer);
          }
          fares := KeepOffer(offers[i], fares, lost);
        }
      }
      assert offers[..|offers|] == offers;
      return Ok(Truncated(AffordableOf(fares, maxPrice), maxResults));
    }

    /** One fare and one cache entry per traveller of a kept offer. */
    method KeepOffer(o: Offer, before: seq<Fare>, lost: set<FareId>) returns (fares: seq<Fare>)
      modifies this`offerCache, this`nextFareId
      ensures fares == before + OfferFares(o, old(nextFareId))
      ensures forall start :: old(offerCache) == Stored(start, before, lost) ==>
                offerCache == Stored(start, fares, lost)
      ensures nextFareId == old(nextFareId) + |o.pricings|
    {
      fares := before;
      for k := 0 to |o.pricings|
        invariant fares == before + OfferFares(o, old(nextFareId))[..k]
        invariant forall start :: old(offerCache) == Stored(start, before, lost) ==>
                    offerCache == Stored(start, fares, lost)
        invariant nextFareId == old(nextFareId) + k
      {
        var fare := Fare(nextFareId, o.pricings[k], o);
        assert (fares + [fare])[..|fares|] == fares;
        fares := fares + [fare];
        nextFareId := nextFareId + 1;
        if fare.id !in lost {
          offerCache := offerCache[fare.id := o];
        }
      }
    }

    /** Reads the cached offers for the fares and keeps one per offer id; stops at the first absent fare. */
    method CollectOffers(fareIds: seq<FareId>) returns (r: Result<seq<Offer>, BookingError>)
      ensures r.Ok? <==> AllCached(offerCache, fareIds)
      ensures r.Ok? ==> r.value == OffersToBook(offerCache, fareIds)
      ensures r.Err? ==> r.error.NotCached? && FirstAbsent(offerCache, fareIds, r.error.fare)
    {
      var seen: set<string> := {};
      var offers: seq<Offer> := [];
      for i := 0 to |fareIds|
        invariant AllCached(offerCache, fareIds[..i])
        invariant offers == Distinct(Lookup(offerCache, fareIds[..i]))
        invariant forall id :: id in seen <==> id in Ids(Lookup(offerCache, fareIds[..i]))
      {
        var fid := fareIds[i];
        if fid !in offerCache {
          assert fareIds[i] == fid;
          return Err(NotCached(fid));
        }
        var cached := offerCache[fid];
        LookupStep(offerCache, fareIds, i);
        if cached.id !in seen {
          seen := seen + {cached.id};
          offers := offers + [cached];
        }
      }
      assert fareIds[..|fareIds|] == fareIds;
      return Ok(offers);
    }

    method RepriceOffers(offers: seq<Offer>, w: World) returns (r: Result<seq<Offer>, BookingError>)
      ensures r.Ok? <==> Reprices(w, offers)
      ensures r.Ok? ==> r.value == Repriced(w, offers)
      ensures r.Ok? ==> forall i :: 0 <= i < |offers| ==> w.reprice(offers[i]) == Some(r.value[i])
      ensures r.Err? ==> r.error == RepriceFailed
    {
      var refreshed: seq<Offer> := [];
      for i := 0 to |offers|
        invariant |refreshed| == i
        invariant forall j :: 0 <= j < i ==> w.reprice(offers[j]) == Some(refreshed[j])
      {
        var repriced := w.reprice(offers[i]);
        if repriced.None? {
          return Err(RepriceFailed);
        }
        refreshed := refreshed + [repriced.value];
      }
      return Ok(refreshed);
    }

    method Create(fareIds: seq<FareId>, passengers: nat, w: World) returns (r: Result<seq<Offer>, BookingError>)
      modifies this`offerCache, this`posts
      ensures r.Ok? <==> Submits(old(offerCache), fareIds, passengers, w) && w.exchange.Answer() == Confirmed
      ensures posts == old(posts) + SentPosts(old(offerCache), fareIds, passengers, w)
      ensures offerCache == CacheAfterBooking(old(offerCache), fareIds, passengers, w)
      ensures r.Ok? ==> r.value == Repriced(w, OffersToBook(old(offerCache), fareIds))
      ensures r.Err? ==> FailsWith(old(offerCache), fareIds, passengers, w, r.error)
    {
      if fareIds == [] {
        return Err(NoFares);
      }
      if passengers == 0 {
        return Err(NoPassengers);
      }
      var collected := CollectOffers(fareIds);
      if collected.Err? {
        return Err(collected.error);
      }
      var refreshed := RepriceOffers(collected.value, w);
      if refreshed.Err? {
        return Err(refreshed.error);
      }
      if !w.passengersOk {
        return Err(BadPassenger);
      }
      var last, attempts, _, _ := RetryLoop.Request(w.exchange.script, w.exchange.maxRetries, w.exchange.draw);
      var reply := if last.Success? then w.exchange.body else Refused;
      posts := posts + [Post(fareIds, refreshed.value, reply != Refused, w.exchange.OrdersUpTo(attempts))];
      if reply == Refused {
        return Err(NoOrder);
      }
      DeleteFares(fareIds, w.undeleted);
      if reply == Garbled {
        return Err(UnmappableOrder);
      }
      return Ok(refreshed.value);
    }

    /** Drops the consumed entries; a delete that fails is logged and ignored. */
    method DeleteFares(fareIds: seq<FareId>, undeleted: set<FareId>)
      modifies this`offerCache
      ensures offerCache == Deleted(old(offerCache), fareIds, undeleted)
    {
      for i := 0 to |fareIds|
        invariant offerCache == Deleted(old(offerCache), fareIds[..i], undeleted)
      {
        if fareIds[i] !in undeleted {
          offerCache := offerCache - {fareIds[i]};
        }
      }
      assert fareIds[..|fareIds|] == fareIds;
    }
  }

  lemma LookupStep(cache: map<FareId, Offer>, fareIds: seq<FareId>, i: nat)
    requires i < |fareIds| && AllCached(cache, fareIds[..i]) && fareIds[i] in cache
    ensures AllCached(cache, fareIds[..i + 1])
    ensures Lookup(cache, fareIds[..i + 1]) == Lookup(cache, fareIds[..i]) + [cache[fareIds[i]]]
    ensures var offers := Lookup(cache, fareIds[..i + 1]);
            && offers[..i] == Lookup(cache, fareIds[..i])
            && (forall id :: id in Ids(offers) <==> id in Ids(offers[..i]) || id == cache[fareIds[i]].id)
  {
    assert fareIds[..i + 1] == fareIds[..i] + [fareIds[i]];
    var offers := Lookup(cache, fareIds[..i + 1]);
    assert Ids(offers) == Ids(offers[..i]) + [offers[i].id];
  }

  /** The booking calls one `create` makes: at most one, which may send several requests. */
  function SentPosts(cache: map<FareId, Offer>, fareIds: seq<FareId>, passengers: nat, w: World): seq<Post> {
    if Submits(cache, fareIds, passengers, w)
    then [Post(fareIds, Repriced(w, OffersToBook(cache, fareIds)), w.exchange.Answer() != Refused, w.exchange.Orders())]
    else []
  }

  function CacheAfterBooking(cache: map<FareId, Offer>, fareIds: seq<FareId>, passengers: nat, w: World)
    : map<FareId, Offer>
  {
    if Submits(cache, fareIds, passengers, w) && w.exchange.Answer() != Refused
    then Deleted(cache, fareIds, w.undeleted)
    else cache
  }
}
