# BoursyCrypto trading engine — a verified Dafny model

This project models the decision engine of an automated trader for one
cryptocurrency pair on the GDAX exchange, together with the order and fill
selection of its order service.

The engine (`TradeService`) keeps five pieces of state:
- the last price the ticker delivered;
- the price snapshot of the running tick;
- the trading mode: NOORDER, ACHAT (buying) or VENTE (selling);
- the buy order that opened the position;
- the protective stop order currently resting.

A scheduled tick dispatches on the mode:
- NOORDER resolves the mode from the account's holdings and the last buy fill.
- ACHAT only takes the price snapshot, because buying is switched off in the source.
- VENTE manages the stop, unless the trader runs in visualisation mode. When
  the secure stop is activated and no stop rests, it places a secure stop.
  Otherwise it decides between waiting and profit mode. In profit mode it first
  places a profit-lock stop, then trails the stop. Within one tick, while the
  recorded stop is at or above the buy price, it asks for nothing or for a
  strictly higher stop. Across ticks this does not hold. The exchange only ever
  receives price 10, so the recorded stop can fall under the buy price. The next
  tick then asks for the lower profit-lock price again
  (`RatchetDefeatedByPlacedPrice`).

The order service (`OrderService`) filters the exchange's answers down to the
traded product. It selects sell orders, fills of one order, and the buy fill
with the highest trade id. It cancels every loaded order.

Layout:
- `wrappers.dfy`: `Option`.
- `gdax_orders.dfy`, module `Gdax`: orders, fills and the selection functions.
  The REST answer is an input `Response(ok, body)`. `cancelOrders` is a loop method.
- `trade_service.dfy`, module `Trade`: each engine step as a pure function
  over an `Engine` value. Class `TradeService` holds the same state in fields.
  Its methods follow the source step by step and are proved to compute exactly
  those functions.
- `trade_properties.dfy`, module `TradeProperties`: the properties, as lemmas.

Modelling choices:
- Prices, percentages and the 0.0025 fee rate are `real`.
- The collaborators answer each tick through one `Collaborators` value:
  - the coin holdings (`AccountService.getBtc`);
  - the exchange's fills answer;
  - the order the exchange returns for a stop placement, or none.
- Requests sent to the exchange are kept in the log `sent`.
- The prices `stopOrderPlace` is asked for are kept in the log `stopRequests`.
  They need their own log because `stopOrderPlace` ignores its argument
  (TradeService.java:259). It always sends the stop price 10 and the whole
  balance as size. The trailing-stop properties are therefore stated about the
  requested prices. The stop recorded afterwards is whatever order the exchange
  returned.
- `MathUtils` is not part of this model. `calculateAddPourcent(x, p)` is taken as
  `x * (1 + p/100)` and `calculateRemovePourcent(x, p)` as `x * (1 - p/100)`.
- `Fill.mapToOrder` is not part of this model. It is taken to copy the order id,
  price, size, fee, product and side of the fill.
- The stream pipeline of `getLastBuyFill` is a stable sort by descending trade
  id followed by `findFirst`. It is modelled as "the first buy fill holding the
  highest trade id". The comparator's `(int)` cast is modelled separately.

Behaviours of the code the model keeps:
- A stop placement sends price 10, whatever price it was asked for.
- The fills request can come back with a status other than OK and no exception.
  If coins are held, the mode then becomes ACHAT (TradeService.java:101-109).
  A request failure that throws is not modelled (see "## Left out").
- No transition leaves VENTE, and the last buy order is never cleared.
- `stopOrderPlace` is public. A stop outside VENTE is therefore ruled out only
  for the ticks and the ticker: `StopStaysInVente`.
- A buy order is held only in VENTE (`BuyOrderStaysInVente`).

## Model

| member | source | states |
|---|---|---|
| Gdax.Filter | src/main/java/com/wizaord/boursycrypto/gdax/service/gdax/OrderService.java:43-46 | a stream filter keeps exactly the passing elements: every kept element passes, membership is "in the input and passes", each passing element keeps its multiplicity |
| Gdax.FilterConcat | src/main/java/com/wizaord/boursycrypto/gdax/service/gdax/OrderService.java:43-46 | filtering a concatenation is the concatenation of the filtered parts, so the kept elements stay in input order |
| Gdax.FilterFilter | src/main/java/com/wizaord/boursycrypto/gdax/service/gdax/OrderService.java:80-83 | two filters in a row equal one filter by the conjunction of their tests |
| Gdax.LoadOrders | src/main/java/com/wizaord/boursycrypto/gdax/service/gdax/OrderService.java:36-48 | empty exactly when the status is not OK; otherwise exactly the orders of the configured product, with their multiplicities |
| Gdax.LoadOrdersKeepsOrder | src/main/java/com/wizaord/boursycrypto/gdax/service/gdax/OrderService.java:43-46 | the loaded orders keep the order of the answer |
| Gdax.LoadSellOrders | src/main/java/com/wizaord/boursycrypto/gdax/service/gdax/OrderService.java:50-58 | empty exactly when `loadOrders` is; otherwise exactly the product's orders on side "sell" |
| Gdax.LoadSellOrdersKeepsOrder | src/main/java/com/wizaord/boursycrypto/gdax/service/gdax/OrderService.java:53-55 | the sell orders of a concatenated answer are those of each part, concatenated: they keep the answer's order |
| Gdax.LoadFills | src/main/java/com/wizaord/boursycrypto/gdax/service/gdax/OrderService.java:60-75 | empty exactly when the status is not OK; otherwise exactly the fills of the configured product |
| Gdax.LoadFillsKeepsOrder | src/main/java/com/wizaord/boursycrypto/gdax/service/gdax/OrderService.java:70-73 | the fills of a concatenated answer are those of each part, concatenated: they keep the answer's order |
| Gdax.LoadFillsForOrderId | src/main/java/com/wizaord/boursycrypto/gdax/service/gdax/OrderService.java:77-86 | empty exactly when the status is not OK; otherwise exactly the product's fills of the given order id |
| Gdax.FillsForOrderIdIsOneFilter | src/main/java/com/wizaord/boursycrypto/gdax/service/gdax/OrderService.java:77-86 | the fills of one order are the answer filtered once by product and order id, in answer order |
| Gdax.LatestIndex | src/main/java/com/wizaord/boursycrypto/gdax/service/gdax/OrderService.java:91-94 | the position a stable descending sort by trade id puts first: its trade id is the highest, and every earlier fill has a strictly lower one |
| Gdax.GetLastBuyFill | src/main/java/com/wizaord/boursycrypto/gdax/service/gdax/OrderService.java:88-97 | empty exactly when the request failed or no fill of the product is a buy; otherwise a buy fill of the product from the answer whose trade id is at least every such fill's |
| Gdax.Int32Cast | src/main/java/com/wizaord/boursycrypto/gdax/service/gdax/OrderService.java:93 | Java's `(int)` narrowing: a 32-bit value congruent to its input modulo 2^32 |
| Gdax.TradeIdComparator | src/main/java/com/wizaord/boursycrypto/gdax/service/gdax/OrderService.java:93 | the comparator value is a 32-bit int congruent modulo 2^32 to the second trade id minus the first |
| Gdax.ComparatorSortsDescending | src/main/java/com/wizaord/boursycrypto/gdax/service/gdax/OrderService.java:93 | when two trade ids are less than 2^31 apart, the comparator says "before" exactly for the higher id and "equal" exactly for equal ids |
| Gdax.ComparatorTiesFarApartIds | src/main/java/com/wizaord/boursycrypto/gdax/service/gdax/OrderService.java:93 | trade ids 2^32 apart compare as equal, so the selection above holds only while trade ids are less than 2^31 apart |
| Gdax.CancelOrders | src/main/java/com/wizaord/boursycrypto/gdax/service/gdax/OrderService.java:99-103 | one cancellation per loaded order, in loaded order, with that order's id; none when loading fails |
| Trade.Received | src/main/java/com/wizaord/boursycrypto/gdax/service/trade/TradeService.java:47-50 | the received price becomes the last price; nothing else changes |
| Trade.DetermineTradeSellMode | src/main/java/com/wizaord/boursycrypto/gdax/service/trade/TradeService.java:122-142 | a stop strictly above the buy price gives profit mode; otherwise profit mode holds exactly when the current price reached the buy price plus the configured percentage |
| Trade.GetBalance | src/main/java/com/wizaord/boursycrypto/gdax/service/trade/TradeService.java:163-172 | balance plus the buy cost (quantity·buy price + buy fee) equals the sale proceeds quantity·price·(1 − 0.0025) |
| Trade.Notified | src/main/java/com/wizaord/boursycrypto/gdax/service/trade/TradeService.java:144-150 | the order becomes the buy order and the mode VENTE; nothing else changes, and the invariant holds |
| Trade.ResolveMode | src/main/java/com/wizaord/boursycrypto/gdax/service/trade/TradeService.java:97-110 | the mode becomes VENTE exactly when coins are held and a buy fill is found, with that fill as buy order; otherwise ACHAT with the buy order unchanged; stop, prices and logs unchanged |
| Trade.PlaceStop | src/main/java/com/wizaord/boursycrypto/gdax/service/trade/TradeService.java:253-261 | placing a stop changes neither the price, the mode nor the buy order |
| Trade.BeneficeStep | src/main/java/com/wizaord/boursycrypto/gdax/service/trade/TradeService.java:213-246 | the profit-mode step changes neither the price, the mode nor the buy order |
| Trade.SellStep | src/main/java/com/wizaord/boursycrypto/gdax/service/trade/TradeService.java:177-206 | the VENTE step changes neither the price, the mode nor the buy order |
| Trade.Tick | src/main/java/com/wizaord/boursycrypto/gdax/service/trade/TradeService.java:63-91 | a tick keeps the invariant "VENTE implies a known buy order" |
| Trade.Run | src/main/java/com/wizaord/boursycrypto/gdax/service/trade/TradeService.java:47-91 | the ticker callbacks and scheduled ticks, one at a time: any sequence of ticker prices and ticks keeps that invariant, because only `notifyNewOrder` sets VENTE and it sets the buy order with it |
| Trade.TradeService.constructor | src/main/java/com/wizaord/boursycrypto/gdax/service/trade/TradeService.java:41-45 | a new service has no price, mode NOORDER, no buy order, no stop, and has sent nothing |
| Trade.TradeService.NotifyNewTickerMessage | src/main/java/com/wizaord/boursycrypto/gdax/service/trade/TradeService.java:47-50 | only the last received price changes |
| Trade.TradeService.DoTrading | src/main/java/com/wizaord/boursycrypto/gdax/service/trade/TradeService.java:63-91 | the new state, the requests sent and the stops asked for are exactly those of `Tick`; the invariant is kept |
| Trade.TradeService.DetermineTradeMode | src/main/java/com/wizaord/boursycrypto/gdax/service/trade/TradeService.java:97-110 | the new state is exactly that of `ResolveMode` |
| Trade.TradeService.NotifyNewOrder | src/main/java/com/wizaord/boursycrypto/gdax/service/trade/TradeService.java:144-150 | the order becomes the buy order and the mode becomes VENTE, nothing else changes |
| Trade.TradeService.DoTradingSell | src/main/java/com/wizaord/boursycrypto/gdax/service/trade/TradeService.java:177-206 | the new state is exactly that of `SellStep` |
| Trade.TradeService.DoTradingSellBenefice | src/main/java/com/wizaord/boursycrypto/gdax/service/trade/TradeService.java:213-246 | the new state is exactly that of `BeneficeStep` |
| Trade.TradeService.StopOrderPlace | src/main/java/com/wizaord/boursycrypto/gdax/service/trade/TradeService.java:253-261 | the new state is exactly that of `PlaceStop`: the old stop's id is cancelled first, then one placement goes out, and the stop becomes the exchange's answer |
| TradeProperties.NoPriceTickIsNoOp | src/main/java/com/wizaord/boursycrypto/gdax/service/trade/TradeService.java:66-69 | before the first price a tick changes nothing and sends nothing |
| TradeProperties.AchatTickOnlySnapshotsPrice | src/main/java/com/wizaord/boursycrypto/gdax/service/trade/TradeService.java:79-82 | an ACHAT tick only copies the received price into the snapshot |
| TradeProperties.VisualisationTickTouchesNoStop | src/main/java/com/wizaord/boursycrypto/gdax/service/trade/TradeService.java:83-89 | a VENTE tick in visualisation mode only copies the price: no stop is cancelled, placed or asked for |
| TradeProperties.ResolutionGoesBuying | src/main/java/com/wizaord/boursycrypto/gdax/service/trade/TradeService.java:97-110 | from NOORDER, with no holdings or no buy fill, the mode becomes ACHAT and the buy order, the stop and the logs are untouched |
| TradeProperties.ResolutionRecoversPosition | src/main/java/com/wizaord/boursycrypto/gdax/service/trade/TradeService.java:99-105 | from NOORDER, with holdings and a buy fill, that fill becomes the buy order and the mode becomes VENTE |
| TradeProperties.ResolutionIsIdempotent | src/main/java/com/wizaord/boursycrypto/gdax/service/trade/TradeService.java:97-110 | resolving twice against the same collaborators gives the same engine as resolving once |
| TradeProperties.ProfitModeIsSticky | src/main/java/com/wizaord/boursycrypto/gdax/service/trade/TradeService.java:129-135 | a stop strictly above the buy price means profit mode at every current price |
| TradeProperties.ProfitModeThreshold | src/main/java/com/wizaord/boursycrypto/gdax/service/trade/TradeService.java:122-142 | otherwise profit mode holds if and only if the price reached the buy price plus the configured percentage |
| TradeProperties.StopAtBuyPriceIsNotSticky | src/main/java/com/wizaord/boursycrypto/gdax/service/trade/TradeService.java:131 | a stop exactly at the buy price does not keep profit mode below the threshold |
| TradeProperties.SecureStopComesFirst | src/main/java/com/wizaord/boursycrypto/gdax/service/trade/TradeService.java:177-187 | with the secure stop on and no stop resting, the secure stop under the current price is asked for and the sell mode is not evaluated |
| TradeProperties.WaitingTouchesNoStop | src/main/java/com/wizaord/boursycrypto/gdax/service/trade/TradeService.java:193-200 | while waiting for profit, a VENTE tick changes nothing |
| TradeProperties.ProfitLockStop | src/main/java/com/wizaord/boursycrypto/gdax/service/trade/TradeService.java:213-233 | in profit mode, with no stop or a stop under the buy price, the stop at the buy price plus the initial percentage is asked for |
| TradeProperties.TrailingStop | src/main/java/com/wizaord/boursycrypto/gdax/service/trade/TradeService.java:235-245 | with a stop at or above the buy price, the trailing candidate is asked for if and only if it is higher than the stop; otherwise nothing changes |
| TradeProperties.ProfitStopNeverLowered | src/main/java/com/wizaord/boursycrypto/gdax/service/trade/TradeService.java:213-246 | once a stop rests at or above the buy price, a VENTE tick asks for nothing or for one price strictly above that stop |
| TradeProperties.PlaceStopCancelsThenPlaces | src/main/java/com/wizaord/boursycrypto/gdax/service/trade/TradeService.java:253-261 | a placement cancels the resting stop's id first, then sends one stop sell at price 10 for the whole balance; the stop becomes the exchange's answer or none |
| TradeProperties.PlacedRequestIgnoresPrice | src/main/java/com/wizaord/boursycrypto/gdax/service/trade/TradeService.java:259 | the price given to `stopOrderPlace` changes neither what is sent nor the recorded stop |
| TradeProperties.BalanceAtBuyPrice | src/main/java/com/wizaord/boursycrypto/gdax/service/trade/TradeService.java:163-172 | selling at the buy price loses exactly the selling fee plus the buying fee |
| TradeProperties.BalanceGrowsWithPrice | src/main/java/com/wizaord/boursycrypto/gdax/service/trade/TradeService.java:163-172 | for a non-negative quantity the balance never falls when the price rises |
| TradeProperties.BalanceBreakEven | src/main/java/com/wizaord/boursycrypto/gdax/service/trade/TradeService.java:163-172 | for a positive quantity the balance is non-negative if and only if the price is at least (q·buy + fee) / (q·(1 − 0.0025)) |
| TradeProperties.PositionIsKept | src/main/java/com/wizaord/boursycrypto/gdax/service/trade/TradeService.java:74-90 | once in VENTE, every later sequence of prices and ticks stays in VENTE with the same buy order |
| TradeProperties.StopStaysInVente | src/main/java/com/wizaord/boursycrypto/gdax/service/trade/TradeService.java:83-89 | prices and ticks never leave a stop resting outside VENTE |
| TradeProperties.BuyOrderStaysInVente | src/main/java/com/wizaord/boursycrypto/gdax/service/trade/TradeService.java:144-150 | prices and ticks never leave a buy order remembered outside VENTE, because only `notifyNewOrder` sets it and it sets VENTE with it |
| TradeProperties.EveryPlacementSentAtTen | src/main/java/com/wizaord/boursycrypto/gdax/service/trade/TradeService.java:259 | over any sequence of prices and ticks, every stop placement sent asks for price 10 |
| TradeProperties.FromStart | src/main/java/com/wizaord/boursycrypto/gdax/service/trade/TradeService.java:41-45 | from a fresh service, no stop and no buy order is held outside VENTE, and every placement sent is at price 10 |
| TradeProperties.ScenarioEnterProfit | src/main/java/com/wizaord/boursycrypto/gdax/service/trade/TradeService.java:193-222 | buy at 100 with profit from +5%: at 104 nothing happens, at 106 the stop 100·(1 + initial/100) is asked for |
| TradeProperties.ScenarioTrailUp | src/main/java/com/wizaord/boursycrypto/gdax/service/trade/TradeService.java:237-245 | stop 110, price 120, 3% trail: 116.4 is asked for |
| TradeProperties.ScenarioHoldOnPullBack | src/main/java/com/wizaord/boursycrypto/gdax/service/trade/TradeService.java:237-241 | stop 116.4, price 112, 3% trail: nothing changes |
| TradeProperties.RatchetDefeatedByPlacedPrice | src/main/java/com/wizaord/boursycrypto/gdax/service/trade/TradeService.java:227-233 | buy 100, stop 110, price 120: the first tick asks for the trail 116.4 and records the returned stop at 10; the second tick, at the same price, asks for the lower profit-lock stop 102 |

## Left out

- Gdax.GetLastBuyFill: assumes any two buy fills' trade ids are less than 2^31 apart. Beyond that the comparator's `(int)` cast gives no consistent order (`ComparatorTiesFarApartIds`), and the sort's result is not modelled.
- The HTTP layer (`RestTemplate`, status codes, URI building) is reduced to `Response(ok, body)`. `cancelOrder` and `placeStopSellOrder` are reduced to entries in the `sent` log, with the placement's answer taken from the collaborators.
- `placeLimitSellOrder` is not modelled; the engine never calls it. The `DecimalFormat("#.##")` price text and its comma replacement are not modelled: this is locale formatting.
- `AccountService`, `MathUtils` and the domain classes `Order`, `Fill` and `Ticker` are not part of this model. Holdings are an input; the percentage helpers and `mapToOrder` are assumed as stated above.
- `logVenteEvolution` and `MathUtils.calculatePourcentDifference` are not modelled: they only log and have no control effect. The balance itself is modelled and proved.
- Slack notifications, `accountService.refreshBalance()` and logging are not modelled: they are side channels with no effect on the engine's state.
- The buy path `doTradingBuyCheck` is not modelled: it is commented out in the source.
- `synchronized`, `@Scheduled` and the cross-thread write of the ticker price are not modelled: this is concurrency. Ticks and ticker prices are modelled as a sequence of events handled one at a time.
- Collaborator exceptions that abort a tick midway are not modelled. Every collaborator call in the model returns. In the source, a `RestTemplate` error thrown from `loadFills` (OrderService.java:65) aborts the tick and leaves the mode NOORDER. A `cancelOrder` that throws at TradeService.java:256 leaves the old stop recorded and sends no placement. In the model the cancel always succeeds.
- Floating-point rounding is not modelled: prices and rates are exact reals.
- `SignatureService` (HMAC signing) and the `Trader` configuration class are not modelled: the signing is a foreign library call. The configuration is the immutable input `TraderConfig`.
