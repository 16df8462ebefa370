/** The storefront's cart page: the effect that flattens `cartItems` into the rows the page
    lists, and the two handlers each row carries (quantity input, delete icon). */
module CartPage {
  import opened Wrappers
  import opened JsObject
  import opened CartData
  import opened Products

  /** One listed line: `{_id, size, quantity}`. */
  datatype Row = Row(id: string, size: string, quantity: int)

  /** Row `x` comes before row `y` in iteration order: an earlier item, or the same item and an
      earlier size. */
  ghost predicate Before(cart: Cart, x: Row, y: Row) {
    && x.id in cart.keys && y.id in cart.keys
    && x.size in cart.vals[x.id].keys && y.size in cart.vals[y.id].keys
    && (|| IndexOf(cart.keys, x.id) < IndexOf(cart.keys, y.id)
        || (x.id == y.id && IndexOf(cart.vals[x.id].keys, x.size) < IndexOf(cart.vals[y.id].keys, y.size)))
  }

  /** The rows pushed for item `id` once the inner loop has visited its first `n` sizes. */
  function SizeRows(id: string, sizes: Sizes, n: nat): seq<Row>
    requires n <= |sizes.keys|
  {
    if n == 0 then []
    else
      var size := sizes.keys[n - 1];
      SizeRows(id, sizes, n - 1) + (if sizes.vals[size] > 0 then [Row(id, size, sizes.vals[size])] else [])
  }

  /** The rows pushed once the outer loop has visited the first `m` items. */
  function ItemRows(cart: Cart, m: nat): seq<Row>
    requires m <= |cart.keys|
  {
    if m == 0 then []
    else
      var id := cart.keys[m - 1];
      ItemRows(cart, m - 1) + SizeRows(id, cart.vals[id], |cart.vals[id].keys|)
  }

  /** Each row of one item carries a size among the first `n`, with its positive count. */
  lemma {:induction false} SizeRowsSound(id: string, sizes: Sizes, n: nat)
    requires n <= |sizes.keys|
    ensures forall x :: x in SizeRows(id, sizes, n) ==>
      && x.id == id && x.size in sizes.keys && IndexOf(sizes.keys, x.size) < n
      && x.quantity == sizes.vals[x.size] && x.quantity > 0
  {
    if n > 0 {
      SizeRowsSound(id, sizes, n - 1);
      IndexOfUnique(sizes, n - 1);
    }
  }

  /** The rows of one item follow the order of its sizes. */
  ghost predicate SizeOrdered(sizes: Sizes, r: seq<Row>) {
    forall a, b :: 0 <= a < b < |r| ==>
      r[a].size in sizes.keys && r[b].size in sizes.keys &&
      IndexOf(sizes.keys, r[a].size) < IndexOf(sizes.keys, r[b].size)
  }

  /** The rows follow item order, then size order within an item. */
  ghost predicate InIterationOrder(cart: Cart, r: seq<Row>) {
    forall a, b :: 0 <= a < b < |r| ==> Before(cart, r[a], r[b])
  }

  /** Rows of the first sizes, followed by rows of a later size, stay in size order. */
  lemma AppendSizeOrdered(sizes: Sizes, prev: seq<Row>, last: seq<Row>, n: nat)
    requires SizeOrdered(sizes, prev)
    requires forall x :: x in prev ==> x.size in sizes.keys && IndexOf(sizes.keys, x.size) < n
    requires forall x :: x in last ==> x.size in sizes.keys && IndexOf(sizes.keys, x.size) == n
    requires |last| <= 1
    ensures SizeOrdered(sizes, prev + last)
  {
    var r := prev + last;
    forall a, b | 0 <= a < b < |r|
      ensures r[a].size in sizes.keys && r[b].size in sizes.keys
      ensures IndexOf(sizes.keys, r[a].size) < IndexOf(sizes.keys, r[b].size)
    {
      assert r[a] == prev[a];
      if b < |prev| {
        assert r[b] == prev[b];
      } else {
        assert prev[a] in prev && r[b] == last[b - |prev|] && last[b - |prev|] in last;
      }
    }
  }

  lemma {:induction false} SizeRowsOrdered(id: string, sizes: Sizes, n: nat)
    requires n <= |sizes.keys|
    ensures SizeOrdered(sizes, SizeRows(id, sizes, n))
  {
    if n > 0 {
      SizeRowsOrdered(id, sizes, n - 1);
      SizeRowsSound(id, sizes, n - 1);
      IndexOfUnique(sizes, n - 1);
      var size := sizes.keys[n - 1];
      var last := if sizes.vals[size] > 0 then [Row(id, size, sizes.vals[size])] else [];
      assert SizeRows(id, sizes, n) == SizeRows(id, sizes, n - 1) + last;
      AppendSizeOrdered(sizes, SizeRows(id, sizes, n - 1), last, n - 1);
    }
  }

  /** Each row of the first `m` items is a positive count of the cart. */
  lemma {:induction false} ItemRowsSound(cart: Cart, m: nat)
    requires m <= |cart.keys|
    ensures forall x :: x in ItemRows(cart, m) ==>
      && x.id in cart.keys && IndexOf(cart.keys, x.id) < m && x.size in cart.vals[x.id].keys
      && HasEntry(cart, x.id, x.size) && x.quantity == Count(cart, x.id, x.size) && x.quantity > 0
  {
    if m > 0 {
      var id := cart.keys[m - 1];
      ItemRowsSound(cart, m - 1);
      SizeRowsSound(id, cart.vals[id], |cart.vals[id].keys|);
      IndexOfUnique(cart, m - 1);
      assert ItemRows(cart, m) == ItemRows(cart, m - 1) + SizeRows(id, cart.vals[id], |cart.vals[id].keys|);
    }
  }

  lemma {:induction false} ItemRowsOrdered(cart: Cart, m: nat)
    requires m <= |cart.keys|
    ensures InIterationOrder(cart, ItemRows(cart, m))
  {
    if m > 0 {
      var id := cart.keys[m - 1];
      var prev := ItemRows(cart, m - 1);
      var last := SizeRows(id, cart.vals[id], |cart.vals[id].keys|);
      var r := ItemRows(cart, m);
      assert r == prev + last;
      ItemRowsOrdered(cart, m - 1);
      ItemRowsSound(cart, m - 1);
      SizeRowsSound(id, cart.vals[id], |cart.vals[id].keys|);
      SizeRowsOrdered(id, cart.vals[id], |cart.vals[id].keys|);
      IndexOfUnique(cart, m - 1);
      AppendItemOrdered(cart, prev, last, id, m - 1);
    }
  }

  /** Rows of the first items, followed by the size-ordered rows of a later item, stay in
      iteration order. */
  lemma AppendItemOrdered(cart: Cart, prev: seq<Row>, last: seq<Row>, id: string, m: nat)
    requires id in cart.keys && IndexOf(cart.keys, id) == m
    requires InIterationOrder(cart, prev)
    requires forall x :: x in prev ==>
      x.id in cart.keys && IndexOf(cart.keys, x.id) < m && x.size in cart.vals[x.id].keys
    requires forall x :: x in last ==> x.id == id && x.size in cart.vals[id].keys
    requires SizeOrdered(cart.vals[id], last)
    ensures InIterationOrder(cart, prev + last)
  {
    var r := prev + last;
    forall a, b | 0 <= a < b < |r|
      ensures Before(cart, r[a], r[b])
    {
      if b < |prev| {
        assert r[a] == prev[a] && r[b] == prev[b];
      } else if a < |prev| {
        assert r[a] == prev[a] && prev[a] in prev;
        assert r[b] == last[b - |prev|] && last[b - |prev|] in last;
      } else {
        assert r[a] == last[a - |prev|] && last[a - |prev|] in last;
        assert r[b] == last[b - |prev|] && last[b - |prev|] in last;
      }
    }
  }

  /** The list the effect builds from the whole cart. */
  function Flattened(cart: Cart): (r: seq<Row>)
    ensures forall x :: x in r ==> HasEntry(cart, x.id, x.size) && x.quantity == Count(cart, x.id, x.size) && x.quantity > 0
    ensures InIterationOrder(cart, r)
  {
    ItemRowsSound(cart, |cart.keys|);
    ItemRowsOrdered(cart, |cart.keys|);
    ItemRows(cart, |cart.keys|)
  }

  lemma {:induction false} SizeRowsComplete(id: string, sizes: Sizes, n: nat, k: nat)
    requires k < n <= |sizes.keys| && sizes.vals[sizes.keys[k]] > 0
    ensures Row(id, sizes.keys[k], sizes.vals[sizes.keys[k]]) in SizeRows(id, sizes, n)
  {
    if k < n - 1 {
      SizeRowsComplete(id, sizes, n - 1, k);
    }
  }

  lemma {:induction false} ItemRowsComplete(cart: Cart, m: nat, k: nat, size: string)
    requires k < m <= |cart.keys|
    requires HasEntry(cart, cart.keys[k], size) && Count(cart, cart.keys[k], size) > 0
    ensures Row(cart.keys[k], size, Count(cart, cart.keys[k], size)) in ItemRows(cart, m)
  {
    var id := cart.keys[m - 1];
    var earlier := ItemRows(cart, m - 1);
    var last := SizeRows(id, cart.vals[id], |cart.vals[id].keys|);
    assert ItemRows(cart, m) == earlier + last;
    var row := Row(cart.keys[k], size, Count(cart, cart.keys[k], size));
    if k < m - 1 {
      ItemRowsComplete(cart, m - 1, k, size);
      assert row in earlier;
    } else {
      var sizes := cart.vals[cart.keys[k]];
      SizeRowsComplete(cart.keys[k], sizes, |sizes.keys|, IndexOf(sizes.keys, size));
      assert row in last;
    }
  }

  /** The rows are exactly the (item, size, count) triples of the cart whose count is
      positive, and no (item, size) pair is listed twice. */
  lemma FlattenedExactly(cart: Cart)
    ensures forall id, size, q :: Row(id, size, q) in Flattened(cart) <==>
      HasEntry(cart, id, size) && q == Count(cart, id, size) && q > 0
    ensures forall a, b :: 0 <= a < b < |Flattened(cart)| ==>
      Flattened(cart)[a].id != Flattened(cart)[b].id || Flattened(cart)[a].size != Flattened(cart)[b].size
  {
    forall id, size, q | HasEntry(cart, id, size) && q == Count(cart, id, size) && q > 0
      ensures Row(id, size, q) in Flattened(cart)
    {
      ItemRowsComplete(cart, |cart.keys|, IndexOf(cart.keys, id), size);
    }
  }

  /** The effect's nested `for...in` loops, pushing one row per positive count. */
  method CollectRows(cartItems: Cart) returns (tempData: seq<Row>)
    ensures tempData == Flattened(cartItems)
  {
    tempData := [];
    var i := 0;
    while i < |cartItems.keys|
      invariant i <= |cartItems.keys|
      invariant tempData == ItemRows(cartItems, i)
    {
      var items := cartItems.keys[i];
      tempData := PushSizeRows(tempData, items, cartItems.vals[items]);
      i := i + 1;
    }
  }

  /** The inner loop over the sizes of item `items`, pushing onto `tempData`. */
  method PushSizeRows(tempData: seq<Row>, items: string, sizes: Sizes) returns (pushed: seq<Row>)
    ensures pushed == tempData + SizeRows(items, sizes, |sizes.keys|)
  {
    pushed := tempData;
    var j := 0;
    while j < |sizes.keys|
      invariant j <= |sizes.keys|
      invariant pushed == tempData + SizeRows(items, sizes, j)
    {
      var item := sizes.keys[j];
      if sizes.vals[item] > 0 {
        var row := Row(items, item, sizes.vals[item]);
        assert SizeRows(items, sizes, j + 1) == SizeRows(items, sizes, j) + [row];
        assert pushed + [row] == tempData + (SizeRows(items, sizes, j) + [row]);
        pushed := pushed + [row];
      } else {
        assert SizeRows(items, sizes, j + 1) == SizeRows(items, sizes, j);
      }
      j := j + 1;
    }
  }

  /** The page's `cartData` state. */
  class CartView {
    var cartData: seq<Row>

    constructor ()
      ensures cartData == []
    {
      cartData := [];
    }

    /** The effect run when `cartItems` or `products` change: while the catalogue has not
        arrived the list is left as it was. */
    method Refresh(products: seq<Product>, cartItems: Cart)
      modifies this
      ensures |products| > 0 ==> cartData == Flattened(cartItems)
      ensures |products| == 0 ==> cartData == old(cartData)
    {
      if |products| > 0 {
        var tempData := CollectRows(cartItems);
        cartData := tempData;
      }
    }
  }

  /** A call of the context's `updateQuantity(id, size, quantity)`. */
  datatype QuantityCall = UpdateQuantity(id: string, size: string, quantity: int)

  /** The quantity input's change handler: the strings `''` and `'0'` are ignored, any other
      value is converted with `Number` (passed in as `toNumber`) and sent. */
  function OnQuantityInput(row: Row, value: string, toNumber: string -> int): (r: Option<QuantityCall>)
    ensures r.None? <==> value == "" || value == "0"
    ensures r.Some? ==> r.value == UpdateQuantity(row.id, row.size, toNumber(value))
  {
    if value == "" || value == "0" then None else Some(UpdateQuantity(row.id, row.size, toNumber(value)))
  }

  /** The delete icon's click handler. */
  function OnDeleteClick(row: Row): (r: QuantityCall)
    ensures r.id == row.id && r.size == row.size && r.quantity == 0
  {
    UpdateQuantity(row.id, row.size, 0)
  }

  /** Typing 3 into the row for item "1", size "S" sends `updateQuantity('1', 'S', 3)`. */
  lemma QuantityInputSendsNumber(toNumber: string -> int)
    requires toNumber("3") == 3
    ensures OnQuantityInput(Row("1", "S", 2), "3", toNumber) == Some(UpdateQuantity("1", "S", 3))
  {
  }

  /** Deleting a listed row and storing what the icon sends (`updateCart` with quantity 0)
      removes exactly that (item, size) pair from the recomputed list; every other row stays. */
  lemma DeleteHidesRow(cart: Cart, row: Row)
    requires row in Flattened(cart)
    ensures row.id in cart.vals
    ensures var call := OnDeleteClick(row);
      var after := Flattened(WithCount(cart, call.id, call.size, call.quantity));
      && (forall x :: x in after ==> x.id != row.id || x.size != row.size)
      && (forall x :: x in after <==> x in Flattened(cart) && (x.id != row.id || x.size != row.size))
  {
    var call := OnDeleteClick(row);
    var updated := WithCount(cart, call.id, call.size, call.quantity);
    FlattenedExactly(cart);
    FlattenedExactly(updated);
    forall x | x in Flattened(cart) && (x.id != row.id || x.size != row.size)
      ensures x in Flattened(updated)
    {
      assert Row(x.id, x.size, x.quantity) == x;
    }
    forall x | x in Flattened(updated)
      ensures x in Flattened(cart)
    {
      assert Row(x.id, x.size, x.quantity) == x;
    }
  }
}
