/** The storefront's order history: every item of every order the user placed, tagged with its
    order's status, payment state, payment method and date, newest first. */
module OrdersPage {
  import opened Wrappers
  import opened Seqs

  /** What the order stored for one bought product. */
  datatype ItemDetails = ItemDetails(id: string, name: string, price: int, image: seq<string>, size: string, quantity: int)

  /** An item as the page shows it; the four order fields are absent until the page sets them. */
  datatype OrderItem = OrderItem(
    details: ItemDetails,
    status: Option<string>,
    payment: Option<bool>,
    paymentMethod: Option<string>,
    date: Option<int>)

  /** The fields of `orderModel` the page reads. */
  datatype Order = Order(items: seq<OrderItem>, status: string, payment: bool, paymentMethod: string, date: int)

  /** The body of `/api/order/userorders`. */
  datatype OrdersReply = OrdersReply(success: bool, orders: seq<Order>)

  /** One item with its order's four fields written onto it; nothing else changes. */
  function Tagged(item: OrderItem, order: Order): (r: OrderItem)
    ensures r.details == item.details
    ensures r.status == Some(order.status) && r.payment == Some(order.payment)
    ensures r.paymentMethod == Some(order.paymentMethod) && r.date == Some(order.date)
  {
    item.(status := Some(order.status), payment := Some(order.payment),
          paymentMethod := Some(order.paymentMethod), date := Some(order.date))
  }

  /** The tagged items of one order, in order. */
  function TagAll(items: seq<OrderItem>, order: Order): seq<OrderItem> {
    if items == [] then [] else TagAll(items[..|items| - 1], order) + [Tagged(items[|items| - 1], order)]
  }

  /** The tagged items of all orders, order after order. */
  function Flatten(orders: seq<Order>): seq<OrderItem> {
    if orders == [] then []
    else Flatten(orders[..|orders| - 1]) + TagAll(orders[|orders| - 1].items, orders[|orders| - 1])
  }

  function TotalItems(orders: seq<Order>): nat {
    if orders == [] then 0 else TotalItems(orders[..|orders| - 1]) + |orders[|orders| - 1].items|
  }

  lemma {:induction false} TagAllExactly(items: seq<OrderItem>, order: Order)
    ensures |TagAll(items, order)| == |items|
    ensures forall k :: 0 <= k < |items| ==> TagAll(items, order)[k] == Tagged(items[k], order)
  {
    if items != [] {
      TagAllExactly(items[..|items| - 1], order);
    }
  }

  /** The flattened list has one entry per item of every order. */
  lemma {:induction false} FlattenLength(orders: seq<Order>)
    ensures |Flatten(orders)| == TotalItems(orders)
  {
    if orders != [] {
      FlattenLength(orders[..|orders| - 1]);
      TagAllExactly(orders[|orders| - 1].items, orders[|orders| - 1]);
    }
  }

  /** Every entry is an item of one of the orders, carrying that order's four fields; and every
      item of every order appears so tagged. */
  lemma {:induction false} FlattenMembers(orders: seq<Order>)
    ensures forall x :: x in Flatten(orders) <==>
      exists o, item :: o in orders && item in o.items && x == Tagged(item, o)
  {
    if orders != [] {
      var init := orders[..|orders| - 1];
      var last := orders[|orders| - 1];
      FlattenMembers(init);
      TagAllExactly(last.items, last);
      forall x ensures x in Flatten(orders) <==> exists o, item :: o in orders && item in o.items && x == Tagged(item, o) {
        if x in Flatten(orders) {
          if x in Flatten(init) {
            var o, item :| o in init && item in o.items && x == Tagged(item, o);
            assert o in orders;
          } else {
            assert x in TagAll(last.items, last);
            var k :| 0 <= k < |last.items| && TagAll(last.items, last)[k] == x;
            assert last in orders && last.items[k] in last.items;
          }
        }
      }
    }
  }

  /** `array.reverse()`: the two ends are exchanged pairwise, moving inward. */
  method ReverseInPlace(a: array<OrderItem>)
    modifies a
    ensures a[..] == Reverse(old(a[..]))
  {
    var lo, hi := 0, a.Length - 1;
    while lo < hi
      invariant 0 <= lo <= a.Length && hi == a.Length - 1 - lo
      invariant lo <= hi + 1
      invariant forall k :: 0 <= k < lo ==> a[k] == old(a[a.Length - 1 - k]) && a[a.Length - 1 - k] == old(a[k])
      invariant forall k :: lo <= k <= hi ==> a[k] == old(a[k])
    {
      a[lo], a[hi] := a[hi], a[lo];
      lo, hi := lo + 1, hi - 1;
    }
    forall k | 0 <= k < a.Length ensures a[k] == Reverse(old(a[..]))[k] {
      ReverseAt(old(a[..]), k);
    }
  }

  /** The page's state: the rows it lists. */
  class OrdersView {
    var orderData: seq<OrderItem>

    constructor()
      ensures orderData == []
    {
      orderData := [];
    }

    /** `loadOrderData`. Without a token nothing is requested; a request that throws (`Err`) or
        answers `success: false` leaves the list as it was. Otherwise the list becomes the
        tagged items of all orders, reversed. */
    method LoadOrderData(token: string, response: Result<OrdersReply>)
      modifies this
      ensures token == "" || response.Err? || !response.value.success ==> orderData == old(orderData)
      ensures token != "" && response.Ok? && response.value.success ==>
        orderData == Reverse(Flatten(response.value.orders))
    {
      if token == "" {
        return;
      }
      if response.Err? || !response.value.success {
        return;
      }
      var orders := response.value.orders;
      var allOrdersItem: seq<OrderItem> := [];
      var i := 0;
      while i < |orders|
        invariant 0 <= i <= |orders|
        invariant allOrdersItem == Flatten(orders[..i])
      {
        var order := orders[i];
        var j := 0;
        while j < |order.items|
          invariant 0 <= j <= |order.items|
          invariant allOrdersItem == Flatten(orders[..i]) + TagAll(order.items[..j], order)
        {
          allOrdersItem := allOrdersItem + [Tagged(order.items[j], order)];
          assert order.items[..j + 1][..j] == order.items[..j];
          j := j + 1;
        }
        assert order.items[..j] == order.items;
        assert orders[..i + 1][..i] == orders[..i];
        i := i + 1;
      }
      assert orders[..i] == orders;
      var a := new OrderItem[|allOrdersItem|](k requires 0 <= k < |allOrdersItem| => allOrdersItem[k]);
      assert a[..] == allOrdersItem;
      ReverseInPlace(a);
      orderData := a[..];
    }
  }

  /** The newest entry comes first: the last item of the last order, tagged with that order. */
  lemma LatestFirst(orders: seq<Order>)
    requires orders != [] && orders[|orders| - 1].items != []
    ensures var last := orders[|orders| - 1];
      Reverse(Flatten(orders))[0] == Tagged(last.items[|last.items| - 1], last)
  {
    var last := orders[|orders| - 1];
    TagAllExactly(last.items, last);
    ReverseAt(Flatten(orders), 0);
  }
}
