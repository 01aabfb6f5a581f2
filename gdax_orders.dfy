/**
  The selection logic of the exchange order service: which orders and fills of a
  REST answer belong to the traded product, which of them are sells or buys, and
  which buy fill opened the current position.  The HTTP exchange itself is not
  modelled: each operation receives the answer as a `Response` (was the status
  200 OK, and the decoded body).
 */
module Gdax {
  import opened Wrappers

  /** An order as the exchange reports it (only the fields the trader reads). */
  datatype Order = Order(id: string, price: real, size: real, fillFees: real, productId: string, side: string)

  /** A fill: one executed trade of an order. */
  datatype Fill = Fill(tradeId: int, orderId: string, productId: string, side: string,
                       price: real, size: real, fee: real)

  /** A REST answer: whether the status was OK, and the decoded array. */
  datatype Response<T> = Response(ok: bool, body: seq<T>)

  /** The order a buy fill stands for once handed to the trading engine (`Fill.mapToOrder`). */
  function FillToOrder(f: Fill): Order {
    Order(f.orderId, f.price, f.size, f.fee, f.productId, f.side)
  }

  // ---------------------------------------------------------------------------
  // Stream filtering

  /** `stream().filter(keep).collect(toList())`: the elements that pass, in their order. */
  function Filter<T(!new)>(s: seq<T>, keep: T -> bool): (r: seq<T>)
    ensures |r| <= |s|
    ensures forall i :: 0 <= i < |r| ==> keep(r[i])
    ensures forall x :: x in r <==> x in s && keep(x)
    ensures forall x :: multiset(r)[x] == if keep(x) then multiset(s)[x] else 0
    decreases |s|
  {
    if s == [] then []
    else
      assert s == [s[0]] + s[1..];
      var rest := Filter(s[1..], keep);
      if keep(s[0]) then [s[0]] + rest else rest
  }

  /** Filtering a concatenation filters each part: the survivors keep their relative order. */
  lemma {:induction false} FilterConcat<T(!new)>(a: seq<T>, b: seq<T>, keep: T -> bool)
    ensures Filter(a + b, keep) == Filter(a, keep) + Filter(b, keep)
    decreases |a|
  {
    if a == [] {
      assert a + b == b;
    } else {
      assert (a + b)[0] == a[0];
      assert (a + b)[1..] == a[1..] + b;
      FilterConcat(a[1..], b, keep);
    }
  }

  /** Two filters in a row are one filter by the conjunction of both tests. */
  lemma {:induction false} FilterFilter<T(!new)>(s: seq<T>, p: T -> bool, q: T -> bool, both: T -> bool)
    requires forall x :: both(x) == (p(x) && q(x))
    ensures Filter(Filter(s, p), q) == Filter(s, both)
    decreases |s|
  {
    if s != [] {
      FilterFilter(s[1..], p, q, both);
    }
  }

  // ---------------------------------------------------------------------------
  // Selectors used by the filters

  function OrderOfProduct(product: string): Order -> bool {
    (o: Order) => o.productId == product
  }

  function OrderOnSide(side: string): Order -> bool {
    (o: Order) => o.side == side
  }

  function FillOfProduct(product: string): Fill -> bool {
    (f: Fill) => f.productId == product
  }

  function FillOfOrder(orderId: string): Fill -> bool {
    (f: Fill) => f.orderId == orderId
  }

  function FillOnSide(side: string): Fill -> bool {
    (f: Fill) => f.side == side
  }

  // ---------------------------------------------------------------------------
  // OrderService

  /** `loadOrders`: nothing on a failed request, else the orders of the configured product. */
  function LoadOrders(resp: Response<Order>, product: string): (r: Option<seq<Order>>)
    ensures r.None? <==> !resp.ok
    ensures r.Some? ==> forall i :: 0 <= i < |r.value| ==> r.value[i].productId == product
    ensures r.Some? ==> forall o :: multiset(r.value)[o] == if o.productId == product then multiset(resp.body)[o] else 0
  {
    if !resp.ok then None else Some(Filter(resp.body, OrderOfProduct(product)))
  }

  /** Two answers glued together load as the two loads glued together: the order is kept. */
  lemma LoadOrdersKeepsOrder(a: seq<Order>, b: seq<Order>, product: string)
    ensures LoadOrders(Response(true, a + b), product).value
         == LoadOrders(Response(true, a), product).value + LoadOrders(Response(true, b), product).value
  {
    FilterConcat(a, b, OrderOfProduct(product));
  }

  /** `loadSellOrders`: the sell orders among those `loadOrders` returns. */
  function LoadSellOrders(resp: Response<Order>, product: string): (r: Option<seq<Order>>)
    ensures r.None? <==> LoadOrders(resp, product).None?
    ensures r.Some? ==> forall i :: 0 <= i < |r.value| ==> r.value[i].productId == product && r.value[i].side == "sell"
    ensures r.Some? ==> forall o :: multiset(r.value)[o]
                          == if o.productId == product && o.side == "sell" then multiset(resp.body)[o] else 0
  {
    match LoadOrders(resp, product)
    case None => None
    case Some(orders) => Some(Filter(orders, OrderOnSide("sell")))
  }

  /** The sell orders keep the order of the answer, as a subsequence of the loaded orders. */
  lemma LoadSellOrdersKeepsOrder(a: seq<Order>, b: seq<Order>, product: string)
    ensures LoadSellOrders(Response(true, a + b), product).value
         == LoadSellOrders(Response(true, a), product).value + LoadSellOrders(Response(true, b), product).value
  {
    FilterConcat(a, b, OrderOfProduct(product));
    FilterConcat(Filter(a, OrderOfProduct(product)), Filter(b, OrderOfProduct(product)), OrderOnSide("sell"));
  }

  /** `loadFills`: nothing on a failed request, else the fills of the configured product. */
  function LoadFills(resp: Response<Fill>, product: string): (r: Option<seq<Fill>>)
    ensures r.None? <==> !resp.ok
    ensures r.Some? ==> forall i :: 0 <= i < |r.value| ==> r.value[i].productId == product
    ensures r.Some? ==> forall f :: multiset(r.value)[f] == if f.productId == product then multiset(resp.body)[f] else 0
  {
    if !resp.ok then None else Some(Filter(resp.body, FillOfProduct(product)))
  }

  /** The loaded fills keep the order of the answer. */
  lemma LoadFillsKeepsOrder(a: seq<Fill>, b: seq<Fill>, product: string)
    ensures LoadFills(Response(true, a + b), product).value
         == LoadFills(Response(true, a), product).value + LoadFills(Response(true, b), product).value
  {
    FilterConcat(a, b, FillOfProduct(product));
  }

  /** `loadFillsForOrderId`: the fills of `loadFills` that belong to one order. */
  function LoadFillsForOrderId(resp: Response<Fill>, product: string, orderId: string): (r: Option<seq<Fill>>)
    ensures r.None? <==> !resp.ok
    ensures r.Some? ==> forall i :: 0 <= i < |r.value| ==> r.value[i].productId == product && r.value[i].orderId == orderId
    ensures r.Some? ==> forall f :: multiset(r.value)[f]
                          == if f.productId == product && f.orderId == orderId then multiset(resp.body)[f] else 0
  {
    match LoadFills(resp, product)
    case None => None
    case Some(fills) => Some(Filter(fills, FillOfOrder(orderId)))
  }

  /** The fills of one order are the body filtered once by product and order id, in body order. */
  lemma FillsForOrderIdIsOneFilter(body: seq<Fill>, product: string, orderId: string)
    ensures LoadFillsForOrderId(Response(true, body), product, orderId).value
         == Filter(body, (f: Fill) => f.productId == product && f.orderId == orderId)
  {
    FilterFilter(body, FillOfProduct(product), FillOfOrder(orderId), (f: Fill) => f.productId == product && f.orderId == orderId);
  }

  /**
    The first position holding the highest trade id.  A stable sort by
    descending trade id followed by `findFirst` picks exactly this fill.
   */
  function LatestIndex(fills: seq<Fill>): (k: nat)
    requires |fills| > 0
    ensures k < |fills|
    ensures forall j :: 0 <= j < |fills| ==> fills[j].tradeId <= fills[k].tradeId
    ensures forall j :: 0 <= j < k ==> fills[j].tradeId < fills[k].tradeId
    decreases |fills|
  {
    if |fills| == 1 then 0
    else
      var k := 1 + LatestIndex(fills[1..]);
      if fills[0].tradeId >= fills[k].tradeId then 0 else k
  }

  /**
    `getLastBuyFill`: nothing if the fills could not be loaded or none is a buy;
    otherwise the buy fill of the product with the highest trade id.
   */
  function GetLastBuyFill(resp: Response<Fill>, product: string): (r: Option<Fill>)
    ensures r.None? <==> !resp.ok || forall f :: f in resp.body ==> !(f.productId == product && f.side == "buy")
    ensures r.Some? ==> r.value in resp.body && r.value.productId == product && r.value.side == "buy"
    ensures r.Some? ==> forall f :: f in resp.body && f.productId == product && f.side == "buy" ==> f.tradeId <= r.value.tradeId
  {
    match LoadFills(resp, product)
    case None => None
    case Some(fills) =>
      var buys := Filter(fills, FillOnSide("buy"));
      if buys == [] then None
      else
        var k := LatestIndex(buys);
        assert forall f :: f in buys ==> f.tradeId <= buys[k].tradeId by {
          forall f | f in buys ensures f.tradeId <= buys[k].tradeId {
            var j :| 0 <= j < |buys| && buys[j] == f;
          }
        }
        Some(buys[k])
  }

  /** Java's `(int)` narrowing of a `long`: keep the low 32 bits as a two's-complement value. */
  function Int32Cast(x: int): (r: int)
    ensures -0x8000_0000 <= r < 0x8000_0000
    ensures (r - x) % 0x1_0000_0000 == 0
  {
    (x + 0x8000_0000) % 0x1_0000_0000 - 0x8000_0000
  }

  /** The comparator `getLastBuyFill` sorts with: `(int) ((o1.trade_id - o2.trade_id) * -1)`. */
  function TradeIdComparator(o1: Fill, o2: Fill): (c: int)
    ensures -0x8000_0000 <= c < 0x8000_0000
    ensures (c - (o2.tradeId - o1.tradeId)) % 0x1_0000_0000 == 0
  {
    Int32Cast((o1.tradeId - o2.tradeId) * -1)
  }

  /** While two trade ids are less than 2^31 apart, the comparator orders by descending trade id. */
  lemma ComparatorSortsDescending(o1: Fill, o2: Fill)
    requires -0x8000_0000 < o1.tradeId - o2.tradeId < 0x8000_0000
    ensures TradeIdComparator(o1, o2) < 0 <==> o1.tradeId > o2.tradeId
    ensures TradeIdComparator(o1, o2) == 0 <==> o1.tradeId == o2.tradeId
    ensures TradeIdComparator(o1, o2) > 0 <==> o1.tradeId < o2.tradeId
  {
    var d := (o1.tradeId - o2.tradeId) * -1;
    assert -0x8000_0000 <= d + 0x8000_0000 - 0x8000_0000 < 0x8000_0000;
    assert 0 <= d + 0x8000_0000 < 0x1_0000_0000;
    assert (d + 0x8000_0000) % 0x1_0000_0000 == d + 0x8000_0000;
  }

  /** Trade ids 2^32 apart compare as equal: the narrowing drops their difference. */
  lemma ComparatorTiesFarApartIds(o1: Fill, o2: Fill)
    requires o2.tradeId == o1.tradeId + 0x1_0000_0000
    ensures TradeIdComparator(o1, o2) == 0 && TradeIdComparator(o2, o1) == 0
  {
    assert (o1.tradeId - o2.tradeId) * -1 == 0x1_0000_0000;
    assert (o2.tradeId - o1.tradeId) * -1 == -0x1_0000_0000;
  }

  /**
    `cancelOrders`: one `cancelOrder` per loaded order, in order, and none when
    the orders cannot be loaded.  Returns the ids cancelled, in the order the
    deletes are issued.
   */
  method CancelOrders(resp: Response<Order>, product: string) returns (cancelled: seq<string>)
    ensures !resp.ok ==> cancelled == []
    ensures var loaded := LoadOrders(resp, product).GetOr([]);
            |cancelled| == |loaded| && forall i :: 0 <= i < |loaded| ==> cancelled[i] == loaded[i].id
  {
    var orders := LoadOrders(resp, product).GetOr([]);
    cancelled := [];
    for i := 0 to |orders|
      invariant |cancelled| == i
      invariant forall j :: 0 <= j < i ==> cancelled[j] == orders[j].id
    {
      cancelled := cancelled + [orders[i].id];
    }
  }
}
