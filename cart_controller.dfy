/** The cart controller's three handlers (`addToCart`, `updateCart`, `getUserCart`) over the
    `users` collection. The request's `userId` is the one the authentication middleware put
    there. `dbFault` stands for an exception raised by the database call itself. */
module CartController {
  import opened Wrappers
  import opened JsObject
  import opened CartData
  import opened UserStore

  /** V8's message when `userData.cartData` is read and `findById` returned `null`. */
  const NullUserMessage := "Cannot read properties of null (reading 'cartData')"

  /** V8's message when `cartData[itemId][size] = quantity` runs with `cartData[itemId]`
      undefined. */
  function UndefinedItemMessage(size: string): string {
    "Cannot set properties of undefined (setting '" + size + "')"
  }

  /** `addToCart`: raise the count at (itemId, size) by one and persist the cart. */
  method AddToCart(db: UserCollection, userId: UserId, itemId: string, size: string, dbFault: Option<string>)
    returns (reply: Reply<string>)
    requires db.Valid()
    modifies db
    ensures db.Valid()
    ensures dbFault.Some? ==> reply == Failure(dbFault.value) && db.docs == old(db.docs)
    ensures dbFault.None? && old(db.FindById(userId)).None? ==>
      reply == Failure(NullUserMessage) && db.docs == old(db.docs)
    ensures dbFault.None? && old(db.FindById(userId)).Some? ==>
      reply == Success("Added To Cart") &&
      db.docs == WithCart(old(db.docs), userId, Incremented(old(db.FindById(userId)).value.cartData, itemId, size))
  {
    if dbFault.Some? {
      return Failure(dbFault.value);
    }
    var userData := db.FindById(userId);
    if userData.None? {
      return Failure(NullUserMessage);
    }
    var cartData := MergeAdd(userData.value.cartData, itemId, size);
    db.UpdateCart(userId, cartData);
    reply := Success("Added To Cart");
  }

  /** `updateCart`: overwrite the count at (itemId, size) with `quantity` and persist the
      cart; an item the cart does not hold makes the assignment throw. */
  method UpdateCart(db: UserCollection, userId: UserId, itemId: string, size: string, quantity: int,
                    dbFault: Option<string>)
    returns (reply: Reply<string>)
    requires db.Valid()
    modifies db
    ensures db.Valid()
    ensures dbFault.Some? ==> reply == Failure(dbFault.value) && db.docs == old(db.docs)
    ensures dbFault.None? && old(db.FindById(userId)).None? ==>
      reply == Failure(NullUserMessage) && db.docs == old(db.docs)
    ensures dbFault.None? && old(db.FindById(userId)).Some? &&
            itemId !in old(db.FindById(userId)).value.cartData.vals ==>
      reply == Failure(UndefinedItemMessage(size)) && db.docs == old(db.docs)
    ensures dbFault.None? && old(db.FindById(userId)).Some? &&
            itemId in old(db.FindById(userId)).value.cartData.vals ==>
      reply == Success("Cart Updated") &&
      db.docs == WithCart(old(db.docs), userId,
                          WithCount(old(db.FindById(userId)).value.cartData, itemId, size, quantity))
  {
    if dbFault.Some? {
      return Failure(dbFault.value);
    }
    var userData := db.FindById(userId);
    if userData.None? {
      return Failure(NullUserMessage);
    }
    var cartData := userData.value.cartData;
    if itemId !in cartData.vals {
      return Failure(UndefinedItemMessage(size));
    }
    cartData := Put(cartData, itemId, Put(cartData.vals[itemId], size, quantity));
    db.UpdateCart(userId, cartData);
    reply := Success("Cart Updated");
  }

  /** `getUserCart`: the stored cart, unchanged. */
  method GetUserCart(db: UserCollection, userId: UserId, dbFault: Option<string>) returns (reply: Reply<Cart>)
    ensures reply.Success? <==> dbFault.None? && exists j :: 0 <= j < |db.docs| && db.docs[j].id == userId
    ensures reply.Success? ==> exists j :: 0 <= j < |db.docs| && db.docs[j].id == userId && db.docs[j].cartData == reply.body
    ensures dbFault.Some? ==> reply == Failure(dbFault.value)
    ensures dbFault.None? && reply.Failure? ==> reply.message == NullUserMessage
  {
    if dbFault.Some? {
      return Failure(dbFault.value);
    }
    var userData := db.FindById(userId);
    if userData.None? {
      return Failure(NullUserMessage);
    }
    reply := Success(userData.value.cartData);
  }

  /** Each handler as the file is written: it never imports `userModel`, so the first
      `userModel.findById` throws a ReferenceError, the catch sends a failure reply, and nothing
      reaches the database. */
  const MissingImportMessage := "userModel is not defined"

  function HandlerAsWritten(docs: seq<User>): (r: (Reply<string>, seq<User>))
    ensures r.0 == Failure(MissingImportMessage) && r.1 == docs
  {
    (Failure(MissingImportMessage), docs)
  }

  /** As written, adding an item for a user who exists leaves the stored documents as they
      were, while the intended merge raises that user's count. */
  lemma MissingImportLosesAdd(docs: seq<User>, userId: UserId, itemId: string, size: string, k: nat)
    requires IndexById(docs, userId) == Some(k)
    ensures HandlerAsWritten(docs).1 != WithCart(docs, userId, Incremented(docs[k].cartData, itemId, size))
  {
    var intended := WithCart(docs, userId, Incremented(docs[k].cartData, itemId, size));
    assert Count(intended[k].cartData, itemId, size) == Count(docs[k].cartData, itemId, size) + 1;
  }
}
