/**
  What the trading engine promises: the tick dispatch, mode resolution, the
  sell-mode rule, the secure / profit-lock / trailing stop rules, the stop
  placement primitive, the balance report, and what stays true over any
  sequence of ticker prices and ticks.
 */
module TradeProperties {
  import opened Wrappers
  import opened Gdax
  import opened Trade

  // ---------------------------------------------------------------------------
  // Tick dispatch

  /** Before the first price arrives a tick changes nothing and sends nothing. */
  lemma NoPriceTickIsNoOp(cfg: TraderConfig, s: Engine, env: Collaborators)
    requires Inv(s) && s.lastPriceReceived.None?
    ensures Tick(cfg, s, env) == s
  {
  }

  /** In ACHAT a tick only takes the price snapshot. */
  lemma AchatTickOnlySnapshotsPrice(cfg: TraderConfig, s: Engine, env: Collaborators, p: real)
    requires Inv(s) && s.lastPriceReceived == Some(p) && s.mode == Achat
    ensures Tick(cfg, s, env) == s.(currentPrice := p)
  {
  }

  /** In VENTE in visualisation mode a tick neither cancels nor places a stop. */
  lemma VisualisationTickTouchesNoStop(cfg: TraderConfig, s: Engine, env: Collaborators, p: real)
    requires Inv(s) && s.lastPriceReceived == Some(p) && s.mode == Vente && cfg.modeVisualisation
    ensures Tick(cfg, s, env) == s.(currentPrice := p)
  {
  }

  // ---------------------------------------------------------------------------
  // Mode resolution

  /** Without holdings, or without a buy fill to recover, NOORDER resolves to ACHAT and nothing else moves. */
  lemma ResolutionGoesBuying(cfg: TraderConfig, s: Engine, env: Collaborators, p: real)
    requires Inv(s) && s.lastPriceReceived == Some(p) && s.mode == NoOrder
    requires env.btc <= 0.0 || GetLastBuyFill(env.fills, cfg.product).None?
    ensures Tick(cfg, s, env) == s.(currentPrice := p, mode := Achat)
  {
  }

  /** With holdings and a buy fill, NOORDER recovers that fill as the position and goes selling. */
  lemma ResolutionRecoversPosition(cfg: TraderConfig, s: Engine, env: Collaborators, p: real, f: Fill)
    requires Inv(s) && s.lastPriceReceived == Some(p) && s.mode == NoOrder
    requires env.btc > 0.0 && GetLastBuyFill(env.fills, cfg.product) == Some(f)
    ensures Tick(cfg, s, env) == s.(currentPrice := p, mode := Vente, lastBuyOrder := Some(FillToOrder(f)))
    ensures f.side == "buy" && f.productId == cfg.product && f in env.fills.body
  {
  }

  /** Resolving twice against the same collaborators gives the same engine as resolving once. */
  lemma ResolutionIsIdempotent(cfg: TraderConfig, s: Engine, env: Collaborators)
    ensures ResolveMode(cfg, ResolveMode(cfg, s, env), env) == ResolveMode(cfg, s, env)
  {
  }

  // ---------------------------------------------------------------------------
  // Sell mode

  /** A stop resting strictly above the buy price keeps profit mode whatever the price does. */
  lemma ProfitModeIsSticky(cfg: TraderConfig, currentPrice: real, lastBuy: Order, stop: Order)
    requires stop.price > lastBuy.price
    ensures DetermineTradeSellMode(cfg, currentPrice, lastBuy, Some(stop)) == Benefice
  {
  }

  /** Without such a stop, profit mode holds exactly when the price reached the configured gain. */
  lemma ProfitModeThreshold(cfg: TraderConfig, currentPrice: real, lastBuy: Order, stop: Option<Order>)
    requires stop.None? || stop.value.price <= lastBuy.price
    ensures DetermineTradeSellMode(cfg, currentPrice, lastBuy, stop) == Benefice
        <==> currentPrice >= AddPercent(lastBuy.price, cfg.percentBeforeStartVenteMode)
  {
  }

  /** A stop exactly at the buy price does not make profit mode sticky. */
  lemma StopAtBuyPriceIsNotSticky(cfg: TraderConfig, currentPrice: real, lastBuy: Order, stop: Order)
    requires stop.price == lastBuy.price
    requires currentPrice < AddPercent(lastBuy.price, cfg.percentBeforeStartVenteMode)
    ensures DetermineTradeSellMode(cfg, currentPrice, lastBuy, Some(stop)) == WaitingForBenefice
  {
  }

  // ---------------------------------------------------------------------------
  // Stop rules of a VENTE tick

  /** With the secure stop on and no stop resting, the secure stop is asked for, and nothing else happens. */
  lemma SecureStopComesFirst(cfg: TraderConfig, s: Engine, env: Collaborators)
    requires s.lastBuyOrder.Some? && cfg.secureStopActivate && s.stopOrder.None?
    ensures SellStep(cfg, s, env) == PlaceStop(s, RemovePercent(s.currentPrice, cfg.secureStopPercent), env)
  {
  }

  /** Waiting for profit, no stop is cancelled or placed. */
  lemma WaitingTouchesNoStop(cfg: TraderConfig, s: Engine, env: Collaborators)
    requires s.lastBuyOrder.Some? && !(cfg.secureStopActivate && s.stopOrder.None?)
    requires DetermineTradeSellMode(cfg, s.currentPrice, s.lastBuyOrder.value, s.stopOrder) == WaitingForBenefice
    ensures SellStep(cfg, s, env) == s
  {
  }

  /** In profit mode with no stop, or with a stop under the buy price, the profit-lock stop is asked for. */
  lemma ProfitLockStop(cfg: TraderConfig, s: Engine, env: Collaborators)
    requires s.lastBuyOrder.Some? && !(cfg.secureStopActivate && s.stopOrder.None?)
    requires DetermineTradeSellMode(cfg, s.currentPrice, s.lastBuyOrder.value, s.stopOrder) == Benefice
    requires s.stopOrder.None? || s.stopOrder.value.price < s.lastBuyOrder.value.price
    ensures SellStep(cfg, s, env) == PlaceStop(s, AddPercent(s.lastBuyOrder.value.price, cfg.initialPercent), env)
  {
  }

  /**
    With a profit stop resting (at or above the buy price) in profit mode, the
    trailing candidate replaces it when it is higher and the stop is left
    alone otherwise.
   */
  lemma TrailingStop(cfg: TraderConfig, s: Engine, env: Collaborators)
    requires s.lastBuyOrder.Some? && s.stopOrder.Some?
    requires s.stopOrder.value.price >= s.lastBuyOrder.value.price
    requires DetermineTradeSellMode(cfg, s.currentPrice, s.lastBuyOrder.value, s.stopOrder) == Benefice
    ensures var candidate := RemovePercent(s.currentPrice, cfg.followingPercent);
            SellStep(cfg, s, env) == if candidate > s.stopOrder.value.price then PlaceStop(s, candidate, env) else s
  {
  }

  /**
    Once a stop rests at or above the buy price, a VENTE tick never asks for a
    lower one: it asks for nothing, or for a single price strictly above it.
   */
  lemma ProfitStopNeverLowered(cfg: TraderConfig, s: Engine, env: Collaborators)
    requires s.lastBuyOrder.Some? && s.stopOrder.Some?
    requires s.stopOrder.value.price >= s.lastBuyOrder.value.price
    ensures var r := SellStep(cfg, s, env);
            r == s
            || (|r.stopRequests| == |s.stopRequests| + 1
                && r.stopRequests[..|s.stopRequests|] == s.stopRequests
                && r.stopRequests[|s.stopRequests|] > s.stopOrder.value.price)
  {
    var r := SellStep(cfg, s, env);
    if r != s {
      assert DetermineTradeSellMode(cfg, s.currentPrice, s.lastBuyOrder.value, s.stopOrder) == Benefice;
      TrailingStop(cfg, s, env);
      assert r.stopRequests[..|s.stopRequests|] == s.stopRequests;
    }
  }

  // ---------------------------------------------------------------------------
  // Stop placement

  /**
    Placing a stop cancels the resting stop first, then sends one stop sell of
    the whole balance at price 10; the stop afterwards is what the exchange
    returned, or none.
   */
  lemma PlaceStopCancelsThenPlaces(s: Engine, price: real, env: Collaborators)
    ensures var r := PlaceStop(s, price, env);
            r.stopOrder == env.placed
            && (s.stopOrder.Some? ==> r.sent == s.sent + [CancelOrder(s.stopOrder.value.id), PlaceStopSellOrder(10.0, env.btc)])
            && (s.stopOrder.None? ==> r.sent == s.sent + [PlaceStopSellOrder(10.0, env.btc)])
  {
  }

  /** The price `stopOrderPlace` is given never reaches the exchange. */
  lemma PlacedRequestIgnoresPrice(s: Engine, p1: real, p2: real, env: Collaborators)
    ensures PlaceStop(s, p1, env).sent == PlaceStop(s, p2, env).sent
    ensures PlaceStop(s, p1, env).stopOrder == PlaceStop(s, p2, env).stopOrder
  {
  }

  // ---------------------------------------------------------------------------
  // Balance report

  /** The price at which selling the position exactly pays back the purchase and both fees. */
  function BreakEvenPrice(lastBuy: Order): real
    requires lastBuy.size > 0.0
  {
    (lastBuy.size * lastBuy.price + lastBuy.fillFees) / (lastBuy.size * (1.0 - SellFeeRate))
  }

  /** Selling at the buy price loses exactly the two fees. */
  lemma BalanceAtBuyPrice(lastBuy: Order)
    ensures GetBalance(lastBuy, lastBuy.price) == -(lastBuy.size * lastBuy.price * SellFeeRate + lastBuy.fillFees)
  {
  }

  /** For a non-negative quantity the balance never falls when the price rises. */
  lemma BalanceGrowsWithPrice(lastBuy: Order, p1: real, p2: real)
    requires lastBuy.size >= 0.0 && p1 <= p2
    ensures GetBalance(lastBuy, p1) <= GetBalance(lastBuy, p2)
  {
    var q := lastBuy.size;
    assert GetBalance(lastBuy, p2) - GetBalance(lastBuy, p1) == q * (p2 - p1) * (1.0 - SellFeeRate);
    assert q * (p2 - p1) >= 0.0;
    assert q * (p2 - p1) * (1.0 - SellFeeRate) >= 0.0;
  }

  /** For a positive quantity the balance is non-negative exactly from the break-even price on. */
  lemma BalanceBreakEven(lastBuy: Order, p: real)
    requires lastBuy.size > 0.0
    ensures GetBalance(lastBuy, p) >= 0.0 <==> p >= BreakEvenPrice(lastBuy)
  {
    var k := lastBuy.size * (1.0 - SellFeeRate);
    var cost := lastBuy.size * lastBuy.price + lastBuy.fillFees;
    assert k > 0.0;
    assert GetBalance(lastBuy, p) == k * p - cost;
    assert BreakEvenPrice(lastBuy) == cost / k;
    assert k * (cost / k) == cost;
    if p >= cost / k {
      assert k * p >= k * (cost / k);
    } else {
      assert k * p < k * (cost / k);
    }
  }

  // ---------------------------------------------------------------------------
  // Over any run of ticker prices and ticks

  /** A stop rests only while the engine is selling. */
  predicate StopOnlyWhileSelling(s: Engine) {
    s.stopOrder.Some? ==> s.mode == Vente
  }

  /** A buy order is remembered only while the engine sells the position it opened. */
  predicate BuyOrderOnlyWhileSelling(s: Engine) {
    s.lastBuyOrder.Some? ==> s.mode == Vente
  }

  /** Every stop placement ever sent asks for the literal stop price 10. */
  predicate AllPlacementsAtTen(s: Engine) {
    forall i :: 0 <= i < |s.sent| && s.sent[i].PlaceStopSellOrder? ==> s.sent[i].stopPrice == 10.0
  }

  /** Once the engine sells, it keeps selling the same position for every later event. */
  lemma {:induction false} PositionIsKept(cfg: TraderConfig, s: Engine, events: seq<Event>)
    requires Inv(s) && s.mode == Vente
    ensures Run(cfg, s, events).mode == Vente
    ensures Run(cfg, s, events).lastBuyOrder == s.lastBuyOrder
    decreases |events|
  {
    if events != [] {
      var next := match events[0]
        case Ticker(p) => Received(s, p)
        case Timer(env) => Tick(cfg, s, env);
      PositionIsKept(cfg, next, events[1..]);
    }
  }

  /** Ticks and prices never leave a stop resting outside VENTE. */
  lemma {:induction false} StopStaysInVente(cfg: TraderConfig, s: Engine, events: seq<Event>)
    requires Inv(s) && StopOnlyWhileSelling(s)
    ensures StopOnlyWhileSelling(Run(cfg, s, events))
    decreases |events|
  {
    if events != [] {
      var next := match events[0]
        case Ticker(p) => Received(s, p)
        case Timer(env) => Tick(cfg, s, env);
      StopStaysInVente(cfg, next, events[1..]);
    }
  }

  /** Ticks and prices never leave a buy order remembered outside VENTE. */
  lemma {:induction false} BuyOrderStaysInVente(cfg: TraderConfig, s: Engine, events: seq<Event>)
    requires Inv(s) && BuyOrderOnlyWhileSelling(s)
    ensures BuyOrderOnlyWhileSelling(Run(cfg, s, events))
    decreases |events|
  {
    if events != [] {
      var next := match events[0]
        case Ticker(p) => Received(s, p)
        case Timer(env) => Tick(cfg, s, env);
      BuyOrderStaysInVente(cfg, next, events[1..]);
    }
  }

  /** Whatever the stop rules ask for, every placement the exchange receives is at price 10. */
  lemma {:induction false} EveryPlacementSentAtTen(cfg: TraderConfig, s: Engine, events: seq<Event>)
    requires Inv(s) && AllPlacementsAtTen(s)
    ensures AllPlacementsAtTen(Run(cfg, s, events))
    decreases |events|
  {
    if events != [] {
      var next := match events[0]
        case Ticker(p) => Received(s, p)
        case Timer(env) => Tick(cfg, s, env);
      EveryPlacementSentAtTen(cfg, next, events[1..]);
    }
  }

  /**
    From the initial state, the engine never holds a stop or a buy order
    outside VENTE, and every placement it sends is at price 10.
   */
  lemma FromStart(cfg: TraderConfig, events: seq<Event>)
    ensures StopOnlyWhileSelling(Run(cfg, Initial(), events))
    ensures BuyOrderOnlyWhileSelling(Run(cfg, Initial(), events))
    ensures AllPlacementsAtTen(Run(cfg, Initial(), events))
  {
    StopStaysInVente(cfg, Initial(), events);
    BuyOrderStaysInVente(cfg, Initial(), events);
    EveryPlacementSentAtTen(cfg, Initial(), events);
  }

  // ---------------------------------------------------------------------------
  // Worked scenarios

  /** Buy at 100, profit mode from +5%: at 104 the engine waits, at 106 it locks the initial profit. */
  lemma ScenarioEnterProfit(cfg: TraderConfig, s: Engine, env: Collaborators)
    requires cfg.percentBeforeStartVenteMode == 5.0 && !cfg.secureStopActivate
    requires s.lastBuyOrder.Some? && s.lastBuyOrder.value.price == 100.0 && s.stopOrder.None?
    ensures DetermineTradeSellMode(cfg, 104.0, s.lastBuyOrder.value, None) == WaitingForBenefice
    ensures SellStep(cfg, s.(currentPrice := 104.0), env) == s.(currentPrice := 104.0)
    ensures SellStep(cfg, s.(currentPrice := 106.0), env).stopRequests
         == s.stopRequests + [100.0 * (1.0 + cfg.initialPercent / 100.0)]
  {
  }

  /** A profit stop at 110 with the price at 120 and a 3% trail asks for 116.4. */
  lemma ScenarioTrailUp(cfg: TraderConfig, s: Engine, env: Collaborators)
    requires cfg.followingPercent == 3.0
    requires s.lastBuyOrder.Some? && s.lastBuyOrder.value.price == 100.0
    requires s.stopOrder.Some? && s.stopOrder.value.price == 110.0 && s.currentPrice == 120.0
    ensures SellStep(cfg, s, env).stopRequests == s.stopRequests + [116.4]
  {
  }

  /** A profit stop at 116.4 with the price back at 112 and a 3% trail stays where it is. */
  lemma ScenarioHoldOnPullBack(cfg: TraderConfig, s: Engine, env: Collaborators)
    requires cfg.followingPercent == 3.0
    requires s.lastBuyOrder.Some? && s.lastBuyOrder.value.price == 100.0
    requires s.stopOrder.Some? && s.stopOrder.value.price == 116.4 && s.currentPrice == 112.0
    ensures SellStep(cfg, s, env) == s
  {
  }

  /**
    The trailing ratchet is defeated by the stop the exchange returns: after a
    trail to 116.4 the resting stop is the returned order at 10, which lies under
    the buy price, so the next tick at the same price asks again for the initial
    profit stop at 102 -- lower than the trail it replaced.
   */
  lemma RatchetDefeatedByPlacedPrice(cfg: TraderConfig, s: Engine, env: Collaborators)
    requires !cfg.modeVisualisation && cfg.percentBeforeStartVenteMode == 5.0
    requires cfg.initialPercent == 2.0 && cfg.followingPercent == 3.0
    requires s.lastPriceReceived == Some(120.0) && s.mode == Vente
    requires s.lastBuyOrder.Some? && s.lastBuyOrder.value.price == 100.0
    requires s.stopOrder.Some? && s.stopOrder.value.price == 110.0
    requires env.placed.Some? && env.placed.value.price == StopPriceSent
    ensures Tick(cfg, s, env).stopOrder == env.placed
    ensures Tick(cfg, Tick(cfg, s, env), env).stopRequests == s.stopRequests + [116.4, 102.0]
  {
  }
}
