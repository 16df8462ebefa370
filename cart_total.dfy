/** The storefront's cart totals box: subtotal, shipping line and total. The subtotal is the
    context's `getCartAmount()`, which is not part of this model and arrives as a number. */
module CartTotal {

  datatype Totals = Totals(subtotal: int, shipping: int, total: int)

  /** An empty cart (subtotal 0) costs nothing, delivery included; otherwise the delivery fee
      is added. The shipping line shows the fee either way. */
  function CartTotals(amount: int, deliveryFee: int): (r: Totals)
    ensures r.subtotal == amount && r.shipping == deliveryFee
    ensures amount == 0 ==> r.total == 0
    ensures amount != 0 ==> r.total == amount + deliveryFee
  {
    Totals(amount, deliveryFee, if amount == 0 then 0 else amount + deliveryFee)
  }

  /** With a non-negative fee and subtotal the total never falls below the subtotal, and it is
      zero exactly when the cart is empty. */
  lemma TotalCoversSubtotal(amount: int, deliveryFee: int)
    requires amount >= 0 && deliveryFee >= 0
    ensures CartTotals(amount, deliveryFee).total >= amount
    ensures CartTotals(amount, deliveryFee).total == 0 <==> amount == 0
  {
  }
}
