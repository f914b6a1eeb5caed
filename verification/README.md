# Voyagent core, modelled and proved in Dafny

Voyagent runs travel agencies: it settles airline tickets through BSP India, books flights through
Amadeus, keeps a double-entry ledger that it exports to Tally, and has a mobile client. This project
models the parts of it where money, bookings or credentials can be lost, and proves what those parts
keep over every input, every interleaving or every run. `dafny verify dfyconfig.toml` checks all of it.

| files | component | main results |
|---|---|---|
| `HafRecords`, `HafParser`, `HafAcceptance`, `HafPrinter` | HAF statement parser | exact acceptance condition and first error; print/parse round trip; ignored lines, header and trailer position and line endings do not matter |
| `BspReport`, `Reconciliation`, `ReconciliationTheorems`, `Settlement` | BSP report and reconciliation | the two-pass algorithm refines a per-row, per-ticket specification; which outcome every billing line gets, exactly; external money is conserved from the digits in the text to the items; exact internal accounting per currency; drift bound; summary agreement |
| `TokenManager`, `RetryLoop` | Amadeus token and request loop | over every interleaving: one token request at a time, cached tokens have over 60 s left, no early refresh, no dropped token served; over every vendor script: bounded attempts, sleeps and invalidations |
| `OfferBooking`, `BookingRuns` | Amadeus search and booking | over every sequential run: a fare whose deletes work and whose order came back is in no later booking call; exactly when the vendor can be left with two orders for a fare; exactly one offer per offer id is submitted; when that drops an offer |
| `MobileAuth` | mobile token refresh | over every interleaving: one refresh request at a time; no redeemed token is posted again if saves succeed; a saved refresh leaves its new token in the store |
| `Ledger`, `TallyVoucher` | double entry and Tally export | trial balance over runs; account balances from the posted lines; rounding; what each Tally ledger receives; exactly when a balanced entry and an invoice that adds up stay balanced in Tally |
| `Mrz` | passport MRZ parser | for every column of line two, exactly which misreadings and transpositions pass; round trip |
| `Bits`, `EntityIds` | identifiers | UUIDv7 packing, shape, order by time (as number and as text); what the patched UUIDv4 changes |
| `Wrappers`, `Text`, `Calendar`, `Canonical` | shared vocabulary | results, ASCII text as Python sees it, Gregorian dates, money |

Loops and objects of the source are methods and classes here, each proved equal to a specification
function; the theorems are about those functions. Concurrent code is cut at its awaits: each method of
`TokenManager.Manager` and `MobileAuth.Client` is one uninterrupted segment and equals one `Step`, and a
run is any sequence of enabled steps.

## Where code and documentation disagree

The model follows the code.

- The log text for duplicate ticket keys (`drivers/bsp_india/mapping.py:283-284`) says later tickets show as
  UNMATCHED_INTERNAL. They show nowhere: `DuplicateTicketVanishes`, and for all inputs `TicketReferences`.
- The parser's documentation tolerates trailing white space on a line; the code strips only CR
  (`drivers/bsp_india/haf_parser.py:490`): by `AcceptanceByLines` such a line must still have 200 characters, and
  `TrailingBlanksAreRefused` shows any number of blanks after a full record refusing the statement.
- The trailer's count and control total are stored and never compared with the body
  (`drivers/bsp_india/haf_parser.py:524-534`), so nothing is claimed about them.
- TENTATIVE is documented as unused; the code emits it on a currency mismatch
  (`drivers/bsp_india/mapping.py:398-423`).
- A header ending on 9999-12-31 overflows instead of giving a period: `PeriodRoundTrip`.
- `create` collapses offers by offer id (`drivers/amadeus/driver.py:303-307`), while vendor ids restart with each search:
  `EveryFareBookedIff` says exactly when every named fare is booked, and in the run `SameIdFromTwoSearches` one fare is
  neither booked nor left in the cache while the booking succeeds.
- The cache deletes are documented to keep a retry from double-booking (`drivers/amadeus/driver.py:345-347`). They come
  after the answer: a timed-out booking request is sent again by the request loop (`drivers/amadeus/client.py:108-125`),
  and an exhausted timeout leaves the fare cached. `OneOrderPerCallIff` and `OrderedOnceIff` give the exact condition a
  caller can check beforehand: one order per call exactly when `max_retries` is 0 (the default is 2,
  `drivers/amadeus/config.py:44-45`), and one order per fare exactly when, besides, no second call names the fare.
  `RetriedRequestOrdersTwice` and `LostAnswerOrdersTwice` are the runs with two orders at the vendor, and
  `VendorHoldsOneOrder` adds that a vendor whose answers are never lost holds one at most in any case.
- A failed delete is logged and ignored: `OrderedFareStaysIff` says exactly which fares, and when the whole booking, can
  then be ordered again, and `FailedDeleteBooksTwice` is such a run.
- A criteria without adults or seniors asks the vendor for one extra adult, after which every fully priced
  offer is skipped and the search comes back empty: `SearchAlignment`.
- The journal validator admits negative amounts and the Tally mapper takes absolute values:
  `VoucherBalancesIff` is the exact condition, `NegativeDebitUnbalancesVoucher` the smallest failure.
- The invoice validators compare currencies only, and the sales mapper takes absolute values too: `SalesVoucherSum` is
  the voucher's sum for every invoice, `SalesVoucherBalancesIff` the exact condition for balance,
  `DiscountUnbalancesVoucher` a discounted invoice that adds up and whose voucher does not, and
  `InvoiceRowsMeanInvoice` says that only non-negative invoices are posted as what they are: a credit note that
  balances is posted as a sale.
- `_new_entity_id` claims to force the variant bits; it writes bits 64 and 65 instead of 62 and 63:
  `NewEntityIdShapeIff`.
- The MRZ parser does not verify the personal number's own check digit; `MisreadingDetected` gives the
  consequence for every column.

## Model

| member | source | states |
|---|---|---|
| HafParser.ParseHaf | drivers/bsp_india/haf_parser.py:454-534 | succeeds exactly on lines whose gathered content has one header, one trailer and no malformed line, and returns that content; an error names the first offending line and why, or the missing header or trailer |
| HafParser.AbsorbLine | drivers/bsp_india/haf_parser.py:486-522 | one loop pass: adds exactly what the line contributes, or refuses it when that would be a second header, a second trailer or a malformed line |
| HafParser.ReadingIsConsistent | drivers/bsp_india/haf_parser.py:496-520 | only BFH01 lines read as headers and only BFT99 lines as trailers, and such lines are never skipped |
| HafParser.SummaryOfConcat | drivers/bsp_india/haf_parser.py:482-522 | the content of two blocks of lines is the content of each, joined |
| HafAcceptance.AcceptanceByLines | drivers/bsp_india/haf_parser.py:486-527 | acceptance line by line: every line blank, or 200 characters and parseable if its code is known; exactly one BFH01 and one BFT99 |
| HafAcceptance.TrailingBlanksAreRefused | drivers/bsp_india/haf_parser.py:84-93 | a full record followed by blanks is refused for its length, and so is every statement that holds it |
| HafAcceptance.IgnoredLineIsInvisible | drivers/bsp_india/haf_parser.py:491-522 | blank lines and unknown codes may be inserted anywhere without changing the result |
| HafAcceptance.HeaderAndTrailerMove | drivers/bsp_india/haf_parser.py:496-522 | header and trailer may be moved over any block of lines: same acceptance, same file |
| HafAcceptance.LinesWithoutNormalising | drivers/bsp_india/haf_parser.py:476-490 | the CR LF replacement is redundant given the CR strip |
| HafAcceptance.LineTerminatorsDoNotMatter | drivers/bsp_india/haf_parser.py:476-490 | LF and CR LF texts give the same lines with the same numbers |
| HafPrinter.CountSurvives | drivers/bsp_india/haf_parser.py:110-123 | an eight-digit count is read back |
| HafPrinter.AirlineSurvives | drivers/bsp_india/haf_parser.py:126-151 | a listed two-character designator is read back |
| HafPrinter.DateSurvives | drivers/bsp_india/haf_parser.py:154-168 | every calendar date, leap days included, is read back from YYYYMMDD |
| HafPrinter.AmountSurvives | drivers/bsp_india/haf_parser.py:171-204 | every signed amount below 10^12 paise is read back from twelve digits and a sign |
| HafPrinter.HeaderSurvives | drivers/bsp_india/haf_parser.py:275-297 | a printed header parses to itself |
| HafPrinter.TicketingSurvives | drivers/bsp_india/haf_parser.py:300-345 | a printed BKS24 parses to itself: number, airline, date, four signed amounts, narration |
| HafPrinter.LinkedSurvives | drivers/bsp_india/haf_parser.py:348-403 | printed BKS39 and BKS45 lines parse to themselves |
| HafPrinter.MemoSurvives | drivers/bsp_india/haf_parser.py:406-431 | printed BKS46 and BKS47 lines parse to themselves |
| HafPrinter.TrailerSurvives | drivers/bsp_india/haf_parser.py:434-446 | a printed trailer parses to itself |
| HafPrinter.HafRoundTrip | drivers/bsp_india/haf_parser.py:211-534 | printing any statement whose fields fit their columns and parsing the text gives the same statement, with LF or CR LF |
| HafPrinter.AirlineFieldIff | drivers/bsp_india/haf_parser.py:126-151 | an airline field is accepted exactly for two capitals or digits that are listed |
| HafPrinter.DateFieldIff | drivers/bsp_india/haf_parser.py:154-168 | a date field gives a date exactly when it is the eight digits of that calendar date |
| HafPrinter.SignColumnMeaning | drivers/bsp_india/haf_parser.py:189-204 | a minus negates, a plus or a blank does not, anything else is refused |
| HafPrinter.AmountNeedsDigits | drivers/bsp_india/haf_parser.py:183-188 | an amount that is not all digits is refused |
| Calendar.NextDayIsOrdinalSuccessor | drivers/bsp_india/mapping.py:215-215 | adding a day is the successor in the ordinal day count, across months and leap years |
| Calendar.PrevOfNext | drivers/bsp_india/driver.py:151-151 | subtracting a day undoes adding one |
| Calendar.NextOfPrev | drivers/bsp_india/mapping.py:215-215 | adding a day undoes subtracting one |
| Calendar.DaysBeforeMonthTable | drivers/bsp_india/haf_parser.py:162-163 | the days before each month of the calendar dates are built on, leap years included |
| Calendar.BeforeIsOrdinalOrder | drivers/bsp_india/driver.py:151-151 | the field-wise order of dates is the order of the day count |
| BspReport.PeriodRoundTrip | drivers/bsp_india/mapping.py:191-216 | header dates to period to fetch dates is the identity exactly for ordered dates with a next day, otherwise there is no period; the period runs from midnight of the first day to midnight of the day after the last |
| BspReport.MapRows | drivers/bsp_india/mapping.py:239-239 | one canonical row per record, in order, or the error of the first record whose row is invalid |
| BspReport.SumTotals | drivers/bsp_india/mapping.py:241-251 | the four running totals are the sums of gross, refund and exchange nets, commission and all nets |
| BspReport.HafFileToBspReport | drivers/bsp_india/mapping.py:219-268 | succeeds exactly for statements the canonical model accepts, with the specified rows, totals and period; else which error comes first: rows, then period, then the report's own fields |
| BspReport.RemittanceSplits | drivers/bsp_india/mapping.py:241-251 | net remittance is sale nets plus the refund total plus memo amounts |
| BspReport.RowsSumToRemittance | drivers/bsp_india/mapping.py:245-265 | the report's rows add up to its net remittance |
| BspReport.TotalsAreOfRows | drivers/bsp_india/mapping.py:162-251 | the totals, accumulated from the parsed records, are also the totals of the reported rows: gross of sales, commissions, nets of refunds and exchanges, all nets |
| Reconciliation.TicketIndex | drivers/bsp_india/mapping.py:276-290 | the dictionary answers like a linear scan for the first ticket with a key, and iterates in order of first occurrence |
| Reconciliation.ReconcileRow | drivers/bsp_india/mapping.py:342-465 | a row becomes the item its kind, key, currency and tolerance call for, and the six figures follow |
| Reconciliation.MatchRows | drivers/bsp_india/mapping.py:342-465 | first pass: one item per row in statement order; the matched keys are the indexed keys of sale rows |
| Reconciliation.AddLeftover | drivers/bsp_india/mapping.py:471-489 | one unmatched ticket becomes one UNMATCHED_INTERNAL item and one more in its count |
| Reconciliation.AddLeftovers | drivers/bsp_india/mapping.py:468-489 | second pass: exactly the first tickets of their key that no sale row bills, in ticket order |
| Reconciliation.Reconcile | drivers/bsp_india/mapping.py:297-502 | the whole algorithm equals the per-row, per-ticket specification, and its figures are those of its items |
| ReconciliationTheorems.OneItemPerRow | drivers/bsp_india/mapping.py:342-465 | each row yields exactly one external item, in statement order, with its number, amount and date; all other items are internal |
| ReconciliationTheorems.OutcomeIff | drivers/bsp_india/mapping.py:342-465 | which outcome every row gets, from kind, keys and amounts alone: unmatched, tentative, matched or discrepancy, each exactly when; with confidence 10000, 5000, 10000 or 8000, delta and ticket reference |
| ReconciliationTheorems.LeftoversInTicketOrder | drivers/bsp_india/mapping.py:468-489 | the internal items follow in ticket order, each with one ticket's id and total and confidence 10000 |
| ReconciliationTheorems.ExternalConservation | drivers/bsp_india/mapping.py:342-465 | external amounts over all items sum to the row nets, whatever the tickets |
| ReconciliationTheorems.InternalAccounting | drivers/bsp_india/mapping.py:276-489 | per currency and without hypotheses: internal amounts are all tickets, less duplicates, plus tickets met again by repeated sale rows |
| ReconciliationTheorems.InternalConservation | drivers/bsp_india/mapping.py:392-489 | with distinct ticket keys and distinct sale keys internal amounts are conserved in every currency |
| ReconciliationTheorems.TicketReferences | drivers/bsp_india/mapping.py:276-489 | exact number of items that refer to each ticket, on the rows and on the rest |
| ReconciliationTheorems.EveryTicketAccountedFor | drivers/bsp_india/mapping.py:392-489 | with distinct keys each ticket is on some external item or on exactly one UNMATCHED_INTERNAL item, never both |
| ReconciliationTheorems.DuplicateTicketVanishes | drivers/bsp_india/mapping.py:276-290 | a second ticket with the same key is in no item |
| ReconciliationTheorems.BoundedDrift | drivers/bsp_india/mapping.py:425-465 | discrepancy deltas are exact and larger than 1; the sum of external minus internal differs from the recorded deltas by at most the matched count |
| ReconciliationTheorems.CountsAddUp | drivers/bsp_india/mapping.py:491-502 | the five outcome counts add up to the number of items |
| ReconciliationTheorems.MatchedMoneyMeaning | drivers/bsp_india/mapping.py:425-430 | the matched amount is absent exactly when nothing matched, and else totals the matched items of its currency |
| ReconciliationTheorems.MatchedInFirstCurrency | drivers/bsp_india/mapping.py:427-430 | with several currencies the matched amount is in that of the first matched item |
| ReconciliationTheorems.SummaryAgrees | drivers/bsp_india/mapping.py:491-502 | every summary count is the number of items with its outcome, and for rows in one currency the matched amount totals them |
| ReconciliationTheorems.KeyIsSerialNumber | drivers/bsp_india/mapping.py:94-104 | a number ending in ten digits is keyed by them whatever stands in front |
| ReconciliationTheorems.KeysCollide | drivers/bsp_india/mapping.py:94-104 | such numbers collide exactly when serial and case-folded airline agree |
| ReconciliationTheorems.KeyIgnoresPunctuation | drivers/bsp_india/mapping.py:94-104 | characters other than digits do not matter, wherever they stand |
| ReconciliationTheorems.KeyIgnoresCase | drivers/bsp_india/mapping.py:104-104 | the case of the airline's letters does not matter |
| ReconciliationTheorems.KeyKeepsShortNumbers | drivers/bsp_india/mapping.py:102-104 | up to ten digits are all kept |
| Settlement.RecordsBillTheLines | drivers/bsp_india/haf_parser.py:486-522 | the records of an accepted statement are its billing lines one by one, in order: kind by code; number, airline, date, signed net, gross and commission by column; they total what the lines total |
| Settlement.ListedAirlines | drivers/bsp_india/haf_parser.py:126-151 | an accepted statement has only listed airlines in the airline columns of its billing lines |
| Settlement.RowsShowTheLines | drivers/bsp_india/mapping.py:162-188 | the rows of a report are its billing lines one by one: kind, number, airline, date, net, gross and commission |
| Settlement.ReportShowsHeader | drivers/bsp_india/mapping.py:236-268 | country and currency of the report are those in the header line's columns, in capitals |
| Settlement.ParsedFilesReport | drivers/bsp_india/mapping.py:219-268 | a parsed statement becomes a report unless its header's currency, country or dates prevent it |
| Settlement.SettlementConserves | drivers/bsp_india/mapping.py:219-489 | from text to items: external amounts sum to the net remittance, which is the signed sum of the billing lines; one external item per billing line, in order, with that line's number, date and amount and the outcome its columns and the tickets call for; nothing else carries external money |
| Settlement.SettleStatement | drivers/bsp_india/mapping.py:219-502 | parse, report and reconcile as calls have that outcome, exactly when the statement parses and reports |
| Settlement.StatementSummaryAgrees | drivers/bsp_india/mapping.py:491-502 | for reports built from a statement the matched amount is the total of all matched rows |
| TokenManager.Manager.constructor | drivers/amadeus/auth.py:42-46 | a new manager has no token and a free lock |
| TokenManager.Manager.AskForToken | drivers/amadeus/auth.py:48-53 | first segment of `get_token`: served from cache, or queued for the lock |
| TokenManager.Manager.RunLocked | drivers/amadeus/auth.py:55-61 | under the lock: the second cache check, else the POST starts with the lock kept |
| TokenManager.Manager.FinishPost | drivers/amadeus/auth.py:68-111 | the answer is cached with its expiry, or nothing changes; the lock is released |
| TokenManager.Manager.Invalidate | drivers/amadeus/auth.py:63-66 | the cached token is dropped under the lock |
| TokenManager.StepKeepsInvariant | drivers/amadeus/auth.py:48-111 | every atomic step keeps lock, cache and event log consistent |
| TokenManager.AtMostOnePost | drivers/amadeus/auth.py:55-61 | in every interleaving at most one task is in the token POST, and it holds the lock |
| TokenManager.PostsDoNotOverlap | drivers/amadeus/auth.py:55-61 | between two token POSTs the first one has ended |
| TokenManager.ServedTokensAreFresh | drivers/amadeus/auth.py:48-60 | a token served from cache comes from an earlier POST, was not dropped since, and has over 60 s left |
| TokenManager.NextPostWaits | drivers/amadeus/auth.py:48-111 | after a success with lifetime E the next POST starts after an `invalidate` or at least E - 60 s later |
| TokenManager.AskingServesOrWaits | drivers/amadeus/auth.py:48-55 | a cached token with over 60 s left is served at once, otherwise the task queues for the lock |
| TokenManager.EnteringServesOrPosts | drivers/amadeus/auth.py:55-61 | under the lock a token fetched meanwhile is served, otherwise the POST is in flight |
| TokenManager.ReplyIsCached | drivers/amadeus/auth.py:92-111 | a token is cached until its lifetime ends and served; a failure leaves the cache alone; the lock is free |
| TokenManager.InvalidateEmptiesCache | drivers/amadeus/auth.py:63-66 | `invalidate` leaves no cached token |
| TokenManager.DroppedTokenIsNotServed | drivers/amadeus/auth.py:48-66 | after an `invalidate` every token served from cache comes from a POST that succeeded later |
| TokenManager.WaitingChangesNothing | drivers/amadeus/auth.py:55-65 | queueing, giving up the queue and passing time change neither cache nor lock |
| RetryLoop.Request | drivers/amadeus/client.py:87-153 | for every vendor script: the attempts, the last outcome, the sleeps and the invalidations are the specified ones |
| RetryLoop.StopsAtFirstTerminal | drivers/amadeus/client.py:95-153 | the call ends with the first terminal outcome, within max(2, max_retries + 1) attempts |
| RetryLoop.RequestIsBounded | drivers/amadeus/client.py:87-166 | attempts, number and length of sleeps (10 s), token invalidations (1), and total sleep without Retry-After (0.5, 1, 2, 4, 8, then 10 s each) are bounded |
| RetryLoop.UnreachableVendor | drivers/amadeus/client.py:155-156 | the attempt bound is reached by a vendor that is never reachable or always busy |
| RetryLoop.RevokedTokenIsRetried | drivers/amadeus/client.py:140-144 | one revoked token is survived whatever max_retries is |
| RetryLoop.LaterUnauthorisedIsFinal | drivers/amadeus/client.py:140-153 | a 401 on the second attempt ends the call |
| RetryLoop.RecoversAfter | drivers/amadeus/client.py:108-153 | a vendor busy or unreachable n <= max_retries times and then successful, failing for good or out of tokens is asked n + 1 times |
| RetryLoop.RetryAfterIsSlept | drivers/amadeus/client.py:158-160 | a Retry-After is slept, up to 10 s |
| RetryLoop.DrawIsSlept | drivers/amadeus/client.py:161-166 | without Retry-After the jittered draw is slept |
| OfferBooking.SearchAlignment | drivers/amadeus/mapping.py:485-494 | for every answer that prices all travellers sent, the search mints fares exactly when an adult or senior travels, and then one for every traveller of every offer |
| OfferBooking.Driver.Search | drivers/amadeus/driver.py:159-228 | which fares are minted, cached and returned, and the state after a mapping failure |
| OfferBooking.Driver.KeepOffer | drivers/amadeus/driver.py:193-215 | one fare and one cache entry per traveller of an offer |
| OfferBooking.Driver.CollectOffers | drivers/amadeus/driver.py:290-307 | one cached offer per offer id in first-occurrence order, or the first fare that is not cached |
| OfferBooking.Driver.RepriceOffers | drivers/amadeus/driver.py:309-317 | all offers refreshed in order, or a failure |
| OfferBooking.Driver.Create | drivers/amadeus/driver.py:234-356 | exactly when a booking call is made, what it holds, how many orders its requests leave at the vendor, when an order comes back, the cache afterwards, and which error each failure raises |
| OfferBooking.Driver.DeleteFares | drivers/amadeus/driver.py:348-354 | the named entries are dropped except where the delete fails; no other entry changes |
| BookingRuns.DistinctIsOnePerId | drivers/amadeus/driver.py:290-307 | the submitted offers are exactly one per offer id, its first occurrence, in order of first occurrence |
| BookingRuns.EveryFareBookedIff | drivers/amadeus/driver.py:290-307 | for every cache and fare list: the offer of every named fare is submitted exactly when no two named fares have different cached offers under one id |
| BookingRuns.SameIdFromTwoSearches | drivers/amadeus/driver.py:290-354 | a run with working deletes: two searches give offers with one id, booking a fare of each orders the first only and drops both fares from the cache |
| BookingRuns.RunKeepsInvariant | drivers/amadeus/driver.py:141-356 | every search, booking or expiry keeps an ordered fare whose own deletes work out of the cache and out of later booking calls |
| BookingRuns.FareBookedAtMostOnce | drivers/amadeus/driver.py:344-354 | over every sequential run, a fare whose own deletes work and whose order came back is in no later booking call |
| BookingRuns.OrderedFareStaysIff | drivers/amadeus/driver.py:348-354 | after an order came back a named fare is still cached exactly when its delete failed, and the same booking can be made again exactly when all its deletes failed |
| BookingRuns.OneOrderPerCallIff | drivers/amadeus/client.py:95-156 | one booking call leaves at most one order at the vendor, whatever happens, exactly when max_retries is 0 |
| BookingRuns.OneOrderPerNaming | drivers/amadeus/driver.py:335-354 | over every run without retries the vendor holds at most one order for a fare per booking call that names it |
| BookingRuns.OrderedOnceIff | drivers/amadeus/driver.py:335-354 | for every max_retries and every number n of booking calls naming a fare: over all runs the fare is ordered at most once exactly when n is 0, or retries are off and n is 1 |
| BookingRuns.OrdersOfOneCall | drivers/amadeus/client.py:95-153 | one booking call leaves at most max(2, max_retries + 1) orders at the vendor |
| BookingRuns.AnsweredOrders | drivers/amadeus/client.py:108-153 | if no answer is lost, one booking call leaves at most one order, and then an order came back |
| BookingRuns.VendorHoldsOneOrder | drivers/amadeus/driver.py:335-354 | over every sequential run in which no answer is lost, the vendor holds at most one order for any fare whose deletes work |
| BookingRuns.UnansweredBookingRepeats | drivers/amadeus/driver.py:335-343 | a call that ends without an order leaves the cache alone, whatever the vendor did, so the same booking can be made again |
| BookingRuns.RetriedRequestOrdersTwice | drivers/amadeus/client.py:108-117 | for every max_retries of 1 or more a run in which one timed-out request makes one `create` order twice |
| BookingRuns.LostAnswerOrdersTwice | drivers/amadeus/driver.py:335-343 | a run without retries in which an exhausted timeout lets two creates order the same fare |
| BookingRuns.AbsentFareSendsNothing | drivers/amadeus/driver.py:294-302 | a booking naming an absent fare sends nothing and changes nothing |
| BookingRuns.SubmittedAreRepriced | drivers/amadeus/driver.py:309-336 | the submitted offers are, one by one, what re-pricing returned for those to book |
| BookingRuns.CachedAfterSearch | drivers/amadeus/driver.py:199-214 | after a search every fare whose store worked finds its offer, and other entries are untouched |
| BookingRuns.MintedFromPriced | drivers/amadeus/driver.py:181-198 | fares are minted only for offers that price between one and the requested number of travellers |
| BookingRuns.PricedOffersAreMinted | drivers/amadeus/driver.py:181-198 | every such offer gets a fare for each of its travellers |
| BookingRuns.FailedDeleteBooksTwice | drivers/amadeus/driver.py:348-354 | a run in which one failed delete orders a fare twice |
| BookingRuns.SiblingFareBooksOfferTwice | drivers/amadeus/driver.py:348-354 | a run in which an offer is ordered twice through two of its fares |
| BookingRuns.SearchResults | drivers/amadeus/driver.py:217-228 | at most max_results fares, in the order minted, each in the limit's currency and no dearer than it; one within the limit is withheld only past the cap |
| MobileAuth.Client.constructor | apps/mobile/lib/auth.tsx:150-151 | a fresh module has no refresh in flight, whatever the store holds |
| MobileAuth.Client.Refresh | apps/mobile/lib/auth.tsx:179-181 | joins the refresh in flight or starts and remembers one |
| MobileAuth.Client.ReadStoredToken | apps/mobile/lib/auth.tsx:183-184 | takes the stored refresh token, or gives up when there is none |
| MobileAuth.Client.PostRefresh | apps/mobile/lib/auth.tsx:185-185 | posts the token that was read |
| MobileAuth.Client.HandleReply | apps/mobile/lib/auth.tsx:186-189 | a usable answer moves on to saving its tokens, anything else ends the refresh |
| MobileAuth.Client.SaveAccessToken | apps/mobile/lib/auth.tsx:144-145 | first write of `persist`: the rotated token is not in the store yet |
| MobileAuth.Client.SaveRefreshToken | apps/mobile/lib/auth.tsx:146-146 | second write: the rotated token replaces the stored one unless the write fails |
| MobileAuth.Client.FinishRefresh | apps/mobile/lib/auth.tsx:191-193 | the `finally` clause forgets the refresh in flight |
| MobileAuth.StepKeepsInvariant | apps/mobile/lib/auth.tsx:144-196 | every atomic step, including sign-in, sign-out and revocation, keeps redeemed tokens out of reach while saves work |
| MobileAuth.AtMostOneRefreshPost | apps/mobile/lib/auth.tsx:179-196 | in every interleaving at most one refresh POST is outstanding, even if saves fail |
| MobileAuth.NoPostAfterSuccess | apps/mobile/lib/auth.tsx:179-196 | if saves succeed no refresh token is posted after the client received a success for it |
| MobileAuth.PostedTokensAreAccepted | apps/mobile/lib/auth.tsx:179-196 | if besides no reply is lost and nothing revoked, the server still accepts every posted token |
| MobileAuth.FailedSaveReposts | apps/mobile/lib/auth.tsx:144-148 | a run in which one failed save posts a redeemed token again |
| MobileAuth.SavedTokenIsStored | apps/mobile/lib/auth.tsx:144-196 | a refresh that succeeds, saves and ends leaves the token its success minted in the store, unless a sign-in or clear wrote in between; that token was never redeemed |
| MobileAuth.StoredTokenIsPosted | apps/mobile/lib/auth.tsx:183-185 | the token posted is the stored one |
| MobileAuth.RefreshSteps | apps/mobile/lib/auth.tsx:179-196 | calls join or start a refresh; failures end it with the store as it was; its end forgets it |
| MobileAuth.SignInAndClear | apps/mobile/lib/auth.tsx:166-209 | a sign-in stores its own token, clearing empties the store |
| MobileAuth.RefreshRotates | apps/mobile/lib/auth.tsx:179-196 | a run of two refreshes posts token 0, succeeds, and then posts token 1 |
| Ledger.CentsNear | schemas/storage/ledger.py:165-168 | quantising moves a value by at most 0.005 |
| Ledger.CentsIff | schemas/storage/ledger.py:165-168 | quantising gives the one number of hundredths within 0.005, even on a tie |
| Ledger.BuildJournalEntry | schemas/storage/ledger.py:171-235 | accepts exactly two or more one-sided lines with equal quantised totals; row i has line i's account and memo, number i + 1, the caller's stamp and both sides rounded to the hundredth, ties to even; otherwise which rule failed first |
| Ledger.AcceptedNearlyBalanced | schemas/storage/ledger.py:199-233 | an accepted entry of n lines has raw totals within 0.01 n |
| Ledger.TwoPlaceInputs | schemas/storage/ledger.py:199-233 | two-place inputs are accepted exactly when one-sided and balanced |
| Ledger.TrialBalance | schemas/storage/ledger.py:171-235 | after any run of postings debits equal credits for any selection of tenants and entries |
| Ledger.AccountNetsSumToZero | schemas/storage/ledger.py:171-235 | a tenant's account nets sum to zero after any run of postings |
| Ledger.BalancesComeFromLines | schemas/storage/ledger.py:199-228 | the balance of every account is what the accepted postings of its tenant moved on it, line by line |
| TallyVoucher.ValidateBalance | schemas/canonical/finance.py:267-278 | the dictionary loop accepts exactly the entries balanced in every currency |
| TallyVoucher.BalancedSumsToZero | schemas/canonical/finance.py:267-278 | balanced in each currency implies a zero signed total over all lines |
| TallyVoucher.JournalToTally | drivers/tally/mapping.py:265-277 | one row per line, in order, with ledger, amount and flag, summing to the lines' amounts with Tally's signs; or the first ledger that cannot be resolved |
| TallyVoucher.RowMeansLine | drivers/tally/mapping.py:238-262 | a row carries its line's amount with Tally's sign exactly for non-negative amounts |
| TallyVoucher.VoucherBalancesIff | drivers/tally/mapping.py:238-277 | a balanced entry gives a voucher summing to zero exactly when negative debits and negative credits cancel, in particular when there are none |
| TallyVoucher.NegativeDebitUnbalancesVoucher | drivers/tally/mapping.py:249-262 | debit 5 with debit -5 is balanced and its voucher sums to -10 |
| TallyVoucher.WrittenVoucherNearlyBalanced | drivers/tally/xml_builder.py:70-72 | written with two decimals, n balanced non-negative lines sum to within 0.005 n of zero |
| TallyVoucher.InvoiceToTally | drivers/tally/mapping.py:286-350 | debtor row, then each line's subtotal row and tax rows, in order; or the first unresolved ledger |
| TallyVoucher.AddLines | drivers/tally/mapping.py:327-350 | the rows of all invoice lines in order, or the first unresolved ledger |
| TallyVoucher.AddLine | drivers/tally/mapping.py:328-350 | the rows one invoice line adds, or its unresolved ledger |
| TallyVoucher.SalesVoucherSum | drivers/tally/mapping.py:315-350 | for every resolvable invoice the voucher sums to subtotals plus taxes minus the grand total, less twice the negative income, plus twice a negative grand total |
| TallyVoucher.SalesVoucherBalancesIff | drivers/tally/mapping.py:315-350 | the voucher of an invoice that adds up balances exactly when it has no negative amount, or, for a negative grand total, no positive line amount; a non-negative invoice balances exactly when it adds up |
| TallyVoucher.DiscountUnbalancesVoucher | drivers/tally/mapping.py:333-339 | 100 less a discount of 10 adds up to 90 and its voucher sums to 20 |
| TallyVoucher.InvoiceRowsMeanInvoice | drivers/tally/mapping.py:319-350 | every row carries its amount on its side exactly for non-negative invoices |
| TallyVoucher.LedgerNameIff | drivers/tally/mapping.py:208-235 | an account has a ledger exactly when its name has something but white space in it |
| TallyVoucher.LedgerTotals | drivers/tally/mapping.py:315-350 | what each ledger receives: grand total on the client's, subtotals on the sales ledgers their lines name, taxes on "Duties & Taxes" |
| TallyVoucher.JournalLedgerTotals | drivers/tally/mapping.py:265-277 | in a journal voucher each ledger receives the amounts of its accounts' lines |
| TallyVoucher.RowsInInvoiceOrder | drivers/tally/mapping.py:315-350 | the debtor's row comes first, then each line's subtotal and taxes in the order of the invoice |
| Mrz.MrzCheckDigit | apps/mobile/lib/ocr.ts:117-135 | the loop returns the 7-3-1 weighted sum modulo 10, or the first illegal character |
| Mrz.DigitByTable | apps/mobile/lib/ocr.ts:117-135 | the digit of any legal string, from the table 0-9, A-Z (10 to 35) with filler 0 and the weights 7, 3, 1 |
| Mrz.DigitOfOneCharacter | apps/mobile/lib/ocr.ts:117-135 | for every length, place and character of the table, the digit of zeros with that one character |
| Mrz.LegalIff | apps/mobile/lib/ocr.ts:123-131 | legal are the 36 characters of the table and the filler |
| Mrz.ReplacementAgainstDigit | apps/mobile/lib/ocr.ts:117-135 | a check digit misses a replaced character exactly when the values agree modulo 10 |
| Mrz.SwapAgainstDigit | apps/mobile/lib/ocr.ts:117-135 | a check digit misses a swap of neighbours exactly when the values agree modulo 5 |
| Mrz.DateRoundTrip | apps/mobile/lib/ocr.ts:137-152 | a six-digit date is read back exactly when its year lies in the century ending at the pivot |
| Mrz.IsoDateColumns | apps/mobile/lib/ocr.ts:149-151 | the date text is year, month, day in 4, 2, 2 digits with hyphens |
| Mrz.NameRoundTrip | apps/mobile/lib/ocr.ts:154-156 | every single-spaced name is recovered from its filler-padded form |
| Mrz.AcceptanceByLine | apps/mobile/lib/ocr.ts:167-253 | a pair is accepted exactly when line one has its shape and line two passes its four digits, two dates and sex |
| Mrz.RejectionNamesFault | apps/mobile/lib/ocr.ts:167-253 | every rejection names what is wrong: length, code, separator, character, digit with the expected one, date or sex |
| Mrz.MisreadingDetected | apps/mobile/lib/ocr.ts:193-253 | for every column of line two and every character: exactly which single misreadings of an accepted pair are let through |
| Mrz.TranspositionDetected | apps/mobile/lib/ocr.ts:193-241 | a swap of neighbours inside a field is let through exactly when values agree modulo 5 and the dates still read |
| Mrz.MrzRoundTrip | apps/mobile/lib/ocr.ts:167-265 | every data page that fits the two lines is read back field by field |
| EntityIds.ShapeIff | schemas/canonical/primitives.py:79-85 | a 128-bit word's text matches the EntityId pattern exactly when its version is 7 and its variant 10 |
| EntityIds.WordOrderIsTextOrder | schemas/storage/base.py:35-50 | the numeric order of identifiers is the lexicographic order of their texts |
| EntityIds.Uuid7Unpacks | schemas/storage/base.py:44-50 | time, version, variant and both random draws can be read back from the packed word |
| EntityIds.Uuid7Shape | schemas/storage/base.py:35-50 | every minted identifier matches the EntityId pattern |
| EntityIds.Uuid7SortsByTime | schemas/storage/base.py:35-50 | identifiers of different milliseconds sort by time, as numbers and as text, whatever was drawn |
| EntityIds.PatchedBit | drivers/amadeus/mapping.py:93-99 | each bit after the patch: 0111 at 79 to 76, 10 at 65 and 64, every other bit unchanged |
| EntityIds.NewEntityIdShapeIff | drivers/amadeus/mapping.py:85-100 | the patched id matches the pattern exactly when the input already carried variant 10 |
| EntityIds.PatchCollidesIff | drivers/amadeus/mapping.py:93-99 | two inputs give one id exactly when they differ in the six patched bits only |
| EntityIds.NewEntityId | drivers/amadeus/mapping.py:85-100 | the four in-place updates and the text they end in |

## Left out

- HTTP, JSON and error-string mapping: vendor calls are outcomes (success, 401, retryable, terminal).
- UTF-8 decoding and Unicode: text is ASCII and already decoded; `isdigit`, `strip` and `\s` are the ASCII ones.
- Decimal context: 28-digit precision is taken as unbounded; HAF amounts are integer paise, canonical amounts are reals.
- Generated ids, timestamps, tenant of the report, evidence texts, suggested actions and log messages of reports and reconciliations.
- The airline allow-list is an abstract set; canonical string fields are trimmed as `str.strip` does; the slice bound check that 200-character lines never reach.
- Agreement of the HAF trailer with the body: the code does not check it.
- HafParser.ReadingIsConsistent: field contents are the business of the round trip and of `Settlement.RecordsBillTheLines`.
- TokenManager.Manager.RunLocked: waiting tasks may take the lock in any order, which includes asyncio's first-in first-out.
- OfferBooking.Driver.Create: a driver without offer cache or passenger resolver, and offers without an id, are not modelled; fare ids come from a counter instead of random UUIDs, so that they are distinct.
- OfferBooking.Driver.Search: non-object offers and the fare's taxes and fees are not modelled; an offer is mappable or not, and what it flies is opaque text.
- Concurrent bookings and offer-level at-most-once: the code guarantees neither.
- MobileAuth.Client.Refresh: access-token expiry checks, the user record and the React context are not modelled; after a sign-out racing a refresh the store need not be empty.
- TallyVoucher.InvoiceToTally: stops at the entry list; envelope building and response parsing are not part of this model.
- EntityIds.Uuid7SortsByTime: identifiers of the same millisecond are ordered by their random draws, about which nothing is claimed.
- Encryption of credentials, the time-zone registry, the TBO, VFS, messaging and payment drivers, storage rows, migrations and user interfaces: wrappers, tables and plumbing without a property of this kind.
