/**
  The trading decision engine of the trader.  Its state is the last price the
  ticker delivered, the price snapshot of the running tick, the trading mode
  (NOORDER, ACHAT = buying, VENTE = selling), the buy order that opened the
  position and the protective stop order currently resting.

  Every step of the engine is first given as a pure function over an `Engine`
  value; class `TradeService` then holds the same state in fields and its
  methods, written step by step like the service, are proved to compute exactly
  those functions.

  The collaborators the engine consults during a tick (account balance, the
  fills answer of the exchange, the order the exchange returns for a stop
  placement) arrive as one `Collaborators` value.  What the engine sends to the
  exchange is recorded in the log `sent`; the price the engine asks
  `stopOrderPlace` for is recorded in `stopRequests`, because that price never
  reaches the exchange: the placement always sends the literal stop price 10.
 */
module Trade {
  import opened Wrappers
  import opened Gdax

  /** The trader's configuration, loaded once. */
  datatype TraderConfig = TraderConfig(
    product: string,                    // name of the traded product
    modeVisualisation: bool,            // watch only: never touch stop orders
    secureStopActivate: bool,           // place a secure stop as soon as none rests
    secureStopPercent: real,            // ... this many percent under the current price
    percentBeforeStartVenteMode: real,  // gain over the buy price that starts profit mode
    initialPercent: real,               // gain over the buy price locked by the first profit stop
    followingPercent: real)             // distance of the trailing stop under the current price

  datatype TradingMode = NoOrder | Achat | Vente

  datatype TradingSellMode = Benefice | WaitingForBenefice

  /** A request sent to the exchange. */
  datatype GatewayCall = CancelOrder(orderId: string) | PlaceStopSellOrder(stopPrice: real, size: real)

  /** The answers of the collaborators during one tick. */
  datatype Collaborators = Collaborators(
    btc: real,                 // holdings of the traded coin (AccountService.getBtc)
    fills: Response<Fill>,     // the exchange's answer to the fills request
    placed: Option<Order>)     // the exchange's answer to a stop placement, if any is made

  /** The engine's state, with the log of what it sent and of the stops it asked for. */
  datatype Engine = Engine(
    lastPriceReceived: Option<real>,
    currentPrice: real,
    mode: TradingMode,
    lastBuyOrder: Option<Order>,
    stopOrder: Option<Order>,
    sent: seq<GatewayCall>,
    stopRequests: seq<real>)

  /** The stop price `stopOrderPlace` hands to the exchange, whatever price it was asked for. */
  const StopPriceSent: real := 10.0

  /** The exchange's selling fee rate used in the balance report. */
  const SellFeeRate: real := 0.0025

  /**
    Percentage helpers.  Their source is not part of this model; they are taken
    to be x * (1 + p/100) and x * (1 - p/100).
   */
  function AddPercent(x: real, p: real): real {
    x * (1.0 + p / 100.0)
  }

  function RemovePercent(x: real, p: real): real {
    x * (1.0 - p / 100.0)
  }

  /** The engine's invariant: in VENTE the buy order that opened the position is known. */
  predicate Inv(s: Engine) {
    s.mode == Vente ==> s.lastBuyOrder.Some?
  }

  /** Nothing but the stop order and the logs differ between `s` and `r`. */
  predicate SamePosition(s: Engine, r: Engine) {
    r.lastPriceReceived == s.lastPriceReceived && r.currentPrice == s.currentPrice
    && r.mode == s.mode && r.lastBuyOrder == s.lastBuyOrder
  }

  function Initial(): Engine {
    Engine(None, 0.0, NoOrder, None, None, [], [])
  }

  // ---------------------------------------------------------------------------
  // The steps of the engine as functions

  /** `notifyNewTickerMessage`: remember the latest traded price. */
  function Received(s: Engine, price: real): (r: Engine)
    ensures r.lastPriceReceived == Some(price)
    ensures r.(lastPriceReceived := s.lastPriceReceived) == s
  {
    s.(lastPriceReceived := Some(price))
  }

  /**
    `determineTradeSellMode`: profit mode when a stop already rests strictly
    above the buy price, or when the current price reached the configured gain.
   */
  function DetermineTradeSellMode(cfg: TraderConfig, currentPrice: real, lastBuy: Order, stop: Option<Order>): (m: TradingSellMode)
    ensures stop.Some? && stop.value.price > lastBuy.price ==> m == Benefice
    ensures (stop.None? || stop.value.price <= lastBuy.price)
            ==> (m == Benefice <==> currentPrice >= AddPercent(lastBuy.price, cfg.percentBeforeStartVenteMode))
  {
    if stop.Some? && stop.value.price > lastBuy.price then Benefice
    else if currentPrice >= AddPercent(lastBuy.price, cfg.percentBeforeStartVenteMode) then Benefice
    else WaitingForBenefice
  }

  /** `getBalance`: what selling the position at `currentPrice` would earn, fees included. */
  function GetBalance(lastBuy: Order, currentPrice: real): (balance: real)
    ensures balance + (lastBuy.size * lastBuy.price + lastBuy.fillFees)
            == lastBuy.size * currentPrice * (1.0 - SellFeeRate)
  {
    var feeVente := lastBuy.size * currentPrice * SellFeeRate;
    var prixVente := lastBuy.size * currentPrice - feeVente;
    var coutAchat := lastBuy.size * lastBuy.price + lastBuy.fillFees;
    prixVente - coutAchat
  }

  function CancelCalls(stop: Option<Order>): seq<GatewayCall> {
    if stop.Some? then [CancelOrder(stop.value.id)] else []
  }

  /**
    `stopOrderPlace(price)`: cancel the resting stop, then ask the exchange for a
    stop sell of the whole balance at price 10; the stop is now whatever the
    exchange returned.
   */
  function PlaceStop(s: Engine, price: real, env: Collaborators): (r: Engine)
    ensures SamePosition(s, r)
  {
    s.(stopOrder := env.placed,
       sent := s.sent + CancelCalls(s.stopOrder) + [PlaceStopSellOrder(StopPriceSent, env.btc)],
       stopRequests := s.stopRequests + [price])
  }

  /** `doTradingSellBenefice`: lock a first profit, then trail the stop upwards. */
  function BeneficeStep(cfg: TraderConfig, s: Engine, env: Collaborators): (r: Engine)
    requires s.lastBuyOrder.Some?
    ensures SamePosition(s, r)
  {
    var lastOrderPrice := s.lastBuyOrder.value.price;
    var seuilStopPrice := AddPercent(lastOrderPrice, cfg.initialPercent);
    if s.stopOrder.None? then PlaceStop(s, seuilStopPrice, env)
    else if s.stopOrder.value.price < lastOrderPrice then PlaceStop(s, seuilStopPrice, env)
    else
      var newStopOrderPrice := RemovePercent(s.currentPrice, cfg.followingPercent);
      if newStopOrderPrice <= s.stopOrder.value.price then s
      else PlaceStop(s, newStopOrderPrice, env)
  }

  /** `doTradingSell`: secure stop first, then act only in profit mode. */
  function SellStep(cfg: TraderConfig, s: Engine, env: Collaborators): (r: Engine)
    requires s.lastBuyOrder.Some?
    ensures SamePosition(s, r)
  {
    if cfg.secureStopActivate && s.stopOrder.None? then
      PlaceStop(s, RemovePercent(s.currentPrice, cfg.secureStopPercent), env)
    else match DetermineTradeSellMode(cfg, s.currentPrice, s.lastBuyOrder.value, s.stopOrder)
      case WaitingForBenefice => s
      case Benefice => BeneficeStep(cfg, s, env)
  }

  /** `notifyNewOrder`: the order opens a position; the engine starts selling. */
  function Notified(s: Engine, order: Order): (r: Engine)
    ensures Inv(r) && r.mode == Vente && r.lastBuyOrder == Some(order)
    ensures r.(mode := s.mode, lastBuyOrder := s.lastBuyOrder) == s
  {
    s.(lastBuyOrder := Some(order), mode := Vente)
  }

  /** `determineTradeMode`: recover a position from the last buy fill, else go buying. */
  function ResolveMode(cfg: TraderConfig, s: Engine, env: Collaborators): (r: Engine)
    ensures Inv(r) && r.mode != NoOrder
    ensures r.mode == Vente <==> env.btc > 0.0 && GetLastBuyFill(env.fills, cfg.product).Some?
    ensures r.mode == Vente ==> r.lastBuyOrder == Some(FillToOrder(GetLastBuyFill(env.fills, cfg.product).value))
    ensures r.mode == Achat ==> r.lastBuyOrder == s.lastBuyOrder
    ensures r.(mode := s.mode, lastBuyOrder := s.lastBuyOrder) == s
  {
    if env.btc > 0.0 && GetLastBuyFill(env.fills, cfg.product).Some? then
      Notified(s, FillToOrder(GetLastBuyFill(env.fills, cfg.product).value))
    else
      s.(mode := Achat)
  }

  /** `doTrading`: one scheduled tick. */
  function Tick(cfg: TraderConfig, s: Engine, env: Collaborators): (r: Engine)
    requires Inv(s)
    ensures Inv(r)
  {
    if s.lastPriceReceived.None? then s
    else
      var t := s.(currentPrice := s.lastPriceReceived.value);
      match t.mode
      case NoOrder => ResolveMode(cfg, t, env)
      case Achat => t
      case Vente => if cfg.modeVisualisation then t else SellStep(cfg, t, env)
  }

  /** What can happen to the engine: a price from the ticker, or a scheduled tick. */
  datatype Event = Ticker(price: real) | Timer(env: Collaborators)

  /** The engine after a sequence of events, processed one at a time. */
  function Run(cfg: TraderConfig, s: Engine, events: seq<Event>): (r: Engine)
    requires Inv(s)
    ensures Inv(r)
    decreases |events|
  {
    if events == [] then s
    else
      var next := match events[0]
        case Ticker(p) => Received(s, p)
        case Timer(env) => Tick(cfg, s, env);
      Run(cfg, next, events[1..])
  }

  // ---------------------------------------------------------------------------
  // The service object

  class TradeService {
    const config: TraderConfig

    var lastCurrentPriceReceived: Option<real>
    var currentPrice: real
    var traderMode: TradingMode
    var lastBuyOrder: Option<Order>
    var stopOrderCurrentOrder: Option<Order>

    /** Requests sent to the exchange so far. */
    ghost var sent: seq<GatewayCall>
    /** Prices `StopOrderPlace` was asked for so far. */
    ghost var stopRequests: seq<real>

    ghost function Model(): Engine
      reads this
    {
      Engine(lastCurrentPriceReceived, currentPrice, traderMode, lastBuyOrder, stopOrderCurrentOrder,
             sent, stopRequests)
    }

    ghost predicate Valid()
      reads this
    {
      Inv(Model())
    }

    constructor (config: TraderConfig)
      ensures this.config == config
      ensures Valid() && Model() == Initial()
    {
      this.config := config;
      lastCurrentPriceReceived := None;
      currentPrice := 0.0;
      traderMode := NoOrder;
      lastBuyOrder := None;
      stopOrderCurrentOrder := None;
      sent := [];
      stopRequests := [];
    }

    method NotifyNewTickerMessage(price: real)
      requires Valid()
      modifies this
      ensures Valid()
      ensures Model() == Received(old(Model()), price)
    {
      lastCurrentPriceReceived := Some(price);
    }

    method DoTrading(env: Collaborators)
      requires Valid()
      modifies this
      ensures Valid()
      ensures Model() == Tick(config, old(Model()), env)
    {
      // without a price nothing can be decided
      if lastCurrentPriceReceived.None? {
        return;
      }
      // the tick works on a snapshot of the price
      currentPrice := lastCurrentPriceReceived.value;
      match traderMode {
        case NoOrder =>
          DetermineTradeMode(env);
        case Achat =>
          // buying is not exercised: the tick only took the snapshot
        case Vente =>
          if !config.modeVisualisation {
            DoTradingSell(env);
          }
      }
    }

    method DetermineTradeMode(env: Collaborators)
      modifies this
      ensures Model() == ResolveMode(config, old(Model()), env)
    {
      if env.btc > 0.0 {
        var lastBuyFill := GetLastBuyFill(env.fills, config.product);
        if lastBuyFill.Some? {
          NotifyNewOrder(FillToOrder(lastBuyFill.value));
          return;
        }
      }
      traderMode := Achat;
    }

    method NotifyNewOrder(order: Order)
      modifies this
      ensures Valid()
      ensures Model() == Notified(old(Model()), order)
    {
      lastBuyOrder := Some(order);
      traderMode := Vente;
    }

    method DoTradingSell(env: Collaborators)
      requires lastBuyOrder.Some?
      modifies this
      ensures Model() == SellStep(config, old(Model()), env)
    {
      // the source names this test as if it meant the opposite: it holds when NO stop rests
      var noStopResting := stopOrderCurrentOrder.None?;
      if config.secureStopActivate && noStopResting {
        var stopPrice := RemovePercent(currentPrice, config.secureStopPercent);
        StopOrderPlace(stopPrice, env);
        return;
      }
      var sellMode := DetermineTradeSellMode(config, currentPrice, lastBuyOrder.value, stopOrderCurrentOrder);
      match sellMode {
        case WaitingForBenefice =>
          // not enough gain yet: nothing to do
        case Benefice =>
          DoTradingSellBenefice(env);
      }
    }

    method DoTradingSellBenefice(env: Collaborators)
      requires lastBuyOrder.Some?
      modifies this
      ensures Model() == BeneficeStep(config, old(Model()), env)
    {
      var lastOrderPrice := lastBuyOrder.value.price;
      var seuilStopPrice := AddPercent(lastOrderPrice, config.initialPercent);
      if stopOrderCurrentOrder.None? {
        StopOrderPlace(seuilStopPrice, env);
        return;
      }
      var currentStopOrderPrice := stopOrderCurrentOrder.value.price;
      // the resting stop is still the secure one: replace it by the profit-lock stop
      if currentStopOrderPrice < lastOrderPrice {
        StopOrderPlace(seuilStopPrice, env);
        return;
      }
      // trail the price: only ever ask for a higher stop
      var newStopOrderPrice := RemovePercent(currentPrice, config.followingPercent);
      if newStopOrderPrice > currentStopOrderPrice {
        StopOrderPlace(newStopOrderPrice, env);
      }
    }

    method StopOrderPlace(price: real, env: Collaborators)
      modifies this
      ensures Model() == PlaceStop(old(Model()), price, env)
    {
      stopRequests := stopRequests + [price];
      if stopOrderCurrentOrder.Some? {
        sent := sent + [CancelOrder(stopOrderCurrentOrder.value.id)];
        stopOrderCurrentOrder := None;
      }
      sent := sent + [PlaceStopSellOrder(StopPriceSent, env.btc)];
      if env.placed.Some? {
        stopOrderCurrentOrder := env.placed;
      }
    }
  }
}
