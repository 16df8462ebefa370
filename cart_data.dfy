/** The cart as the backend stores it in `userModel.cartData` and the storefront keeps it in
    `cartItems`: item id -> size -> count, both levels plain JavaScript objects. The two
    changes the cart controller makes are stated here as functions on that value. */
module CartData {
  import opened JsObject

  /** size -> count for one item */
  type Sizes = Obj<int>

  /** item id -> sizes */
  type Cart = Obj<Sizes>

  /** The count stored at (item, size), or 0 when the item or the size is absent. */
  function Count(cart: Cart, itemId: string, size: string): int {
    if itemId in cart.vals && size in cart.vals[itemId].vals then cart.vals[itemId].vals[size] else 0
  }

  /** (item, size) is a key pair of the cart, whatever its count. */
  predicate HasEntry(cart: Cart, itemId: string, size: string) {
    itemId in cart.vals && size in cart.vals[itemId].vals
  }

  /** The cart after `addToCart(itemId, size)`: that count is one more than before (a missing
      item or size counting as 0), and nothing else changes. A new item gets an object holding
      only that size. */
  function Incremented(cart: Cart, itemId: string, size: string): (r: Cart)
    ensures HasEntry(r, itemId, size) && Count(r, itemId, size) == Count(cart, itemId, size) + 1
    ensures forall i, s :: i != itemId || s != size ==>
      Count(r, i, s) == Count(cart, i, s) && (HasEntry(r, i, s) <==> HasEntry(cart, i, s))
    ensures forall i :: i != itemId ==> Get(r, i) == Get(cart, i)
    ensures itemId in cart.vals ==>
      forall s :: s != size ==> Get(r.vals[itemId], s) == Get(cart.vals[itemId], s)
    ensures itemId !in cart.vals ==> r.vals[itemId].keys == [size] && r.keys == cart.keys + [itemId]
    ensures itemId in cart.vals ==> r.keys == cart.keys
  {
    var sizes: Sizes := if itemId in cart.vals then cart.vals[itemId] else Empty();
    PutCountFrame(cart, itemId, size, sizes, Count(cart, itemId, size) + 1);
    Put(cart, itemId, Put(sizes, size, Count(cart, itemId, size) + 1))
  }

  /** The cart after `updateCart(itemId, size, quantity)` on an item the cart holds: that count
      is exactly `quantity` (no clamping; 0 keeps the key), nothing else changes. */
  function WithCount(cart: Cart, itemId: string, size: string, quantity: int): (r: Cart)
    requires itemId in cart.vals
    ensures HasEntry(r, itemId, size) && Count(r, itemId, size) == quantity
    ensures forall i, s :: i != itemId || s != size ==>
      Count(r, i, s) == Count(cart, i, s) && (HasEntry(r, i, s) <==> HasEntry(cart, i, s))
    ensures forall i :: i != itemId ==> Get(r, i) == Get(cart, i)
    ensures forall s :: s != size ==> Get(r.vals[itemId], s) == Get(cart.vals[itemId], s)
    ensures r.keys == cart.keys
  {
    PutCountFrame(cart, itemId, size, cart.vals[itemId], quantity);
    Put(cart, itemId, Put(cart.vals[itemId], size, quantity))
  }

  /** Writing one count, `cart[itemId][size] = v` on the item's current sizes (or on `{}` for a
      new item), leaves every other (item, size) pair as it was. */
  lemma PutCountFrame(cart: Cart, itemId: string, size: string, sizes: Sizes, v: int)
    requires itemId in cart.vals ==> sizes == cart.vals[itemId]
    requires itemId !in cart.vals ==> sizes == Empty()
    ensures var r := Put(cart, itemId, Put(sizes, size, v));
      forall i, s :: i != itemId || s != size ==>
        Count(r, i, s) == Count(cart, i, s) && (HasEntry(r, i, s) <==> HasEntry(cart, i, s))
  {
    var inner := Put(sizes, size, v);
    var r := Put(cart, itemId, inner);
    forall i, s | i != itemId || s != size
      ensures Count(r, i, s) == Count(cart, i, s) && (HasEntry(r, i, s) <==> HasEntry(cart, i, s))
    {
      if i != itemId {
        assert (i in r.vals <==> i in cart.vals) && (i in r.vals ==> r.vals[i] == cart.vals[i]);
      } else {
        assert r.vals[i] == inner && inner.vals == sizes.vals[size := v];
      }
    }
  }

  /** The merge `addToCart` performs on the stored cart: a present, truthy count goes up by
      one; a missing or zero count becomes 1; an unknown item first gets an empty object. */
  method MergeAdd(cartData: Cart, itemId: string, size: string) returns (merged: Cart)
    ensures merged == Incremented(cartData, itemId, size)
  {
    if itemId in cartData.vals {
      var sizes := cartData.vals[itemId];
      if size in sizes.vals && sizes.vals[size] != 0 {
        sizes := Put(sizes, size, sizes.vals[size] + 1);
      } else {
        sizes := Put(sizes, size, 1);
      }
      merged := Put(cartData, itemId, sizes);
      IncrementedKnownItem(cartData, itemId, size);
    } else {
      merged := Put(cartData, itemId, Empty());
      assert merged.vals[itemId] == Empty();
      merged := Put(merged, itemId, Put(merged.vals[itemId], size, 1));
      IncrementedNewItem(cartData, itemId, size);
    }
  }

  /** For an item the cart holds, the increment rewrites that item's sizes in place. */
  lemma IncrementedKnownItem(cart: Cart, itemId: string, size: string)
    requires itemId in cart.vals
    ensures var sizes := cart.vals[itemId];
      Incremented(cart, itemId, size) ==
        Put(cart, itemId, Put(sizes, size, if size in sizes.vals && sizes.vals[size] != 0 then sizes.vals[size] + 1 else 1))
  {
    var sizes := cart.vals[itemId];
    assert Count(cart, itemId, size) + 1 ==
      if size in sizes.vals && sizes.vals[size] != 0 then sizes.vals[size] + 1 else 1;
  }

  /** For a new item, `cartData[itemId] = {}` followed by `cartData[itemId][size] = 1` is the
      increment. */
  lemma IncrementedNewItem(cart: Cart, itemId: string, size: string)
    requires itemId !in cart.vals
    ensures Incremented(cart, itemId, size) == Put(Put(cart, itemId, Empty()), itemId, Put(Empty(), size, 1))
  {
    var sizes: Sizes := Put(Empty(), size, 1);
    assert Incremented(cart, itemId, size) == Put(cart, itemId, sizes) by {
      assert Count(cart, itemId, size) + 1 == 1;
      assert Put(Empty(), size, Count(cart, itemId, size) + 1) == sizes;
    }
    assert Put(Put(cart, itemId, Empty()), itemId, sizes) == Put(cart, itemId, sizes) by {
      PutTwice(cart, itemId, Empty(), sizes);
    }
  }
}
