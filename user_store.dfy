/** The `users` collection behind `userModel`: documents with an id, name, email, hashed
    password and cart, and the unique indexes on `_id` and `email`. */
module UserStore {
  import opened Wrappers
  import opened Seqs
  import opened MongoErrors
  import opened CartData

  type UserId = string

  datatype User = User(id: UserId, name: string, email: string, password: string, cartData: Cart)

  /** No two documents share an id or an email. */
  ghost predicate Unique(docs: seq<User>) {
    forall i, j :: 0 <= i < j < |docs| ==> docs[i].id != docs[j].id && docs[i].email != docs[j].email
  }

  /** Position of the document with this id (`findById`). */
  function IndexById(docs: seq<User>, id: UserId): (r: Option<nat>)
    ensures r.Some? ==> r.value < |docs| && docs[r.value].id == id
    ensures r.None? <==> forall j :: 0 <= j < |docs| ==> docs[j].id != id
  {
    IndexWhere(docs, (u: User) => u.id == id)
  }

  /** Position of the document with this email (`findOne({email})`). */
  function IndexByEmail(docs: seq<User>, email: string): (r: Option<nat>)
    ensures r.Some? ==> r.value < |docs| && docs[r.value].email == email
    ensures r.None? <==> forall j :: 0 <= j < |docs| ==> docs[j].email != email
  {
    IndexWhere(docs, (u: User) => u.email == email)
  }

  /** The documents after `findByIdAndUpdate(id, {cartData})`: the matching document, if
      any, takes the new cart; every other document and field stays as it was. */
  function WithCart(docs: seq<User>, id: UserId, cart: Cart): (r: seq<User>)
    ensures |r| == |docs|
    ensures forall j :: 0 <= j < |docs| && docs[j].id != id ==> r[j] == docs[j]
    ensures forall j :: 0 <= j < |docs| && docs[j].id == id && IndexById(docs, id) == Some(j) ==>
      r[j] == docs[j].(cartData := cart)
  {
    match IndexById(docs, id)
    case None => docs
    case Some(k) => docs[k := docs[k].(cartData := cart)]
  }

  class UserCollection {
    var docs: seq<User>

    ghost predicate Valid()
      reads this
    {
      Unique(docs)
    }

    constructor ()
      ensures Valid() && docs == []
    {
      docs := [];
    }

    /** `userModel.findById(id)`: the document, or `null`. */
    function FindById(id: UserId): (r: Option<User>)
      reads this
      ensures r.Some? <==> exists j :: 0 <= j < |docs| && docs[j].id == id
      ensures r.Some? ==> r.value in docs && r.value.id == id
    {
      match IndexById(docs, id)
      case None => None
      case Some(k) => Some(docs[k])
    }

    /** `userModel.findOne({email})`: the document, or `null`. */
    function FindOne(email: string): (r: Option<User>)
      reads this
      ensures r.Some? <==> exists j :: 0 <= j < |docs| && docs[j].email == email
      ensures r.Some? ==> r.value in docs && r.value.email == email
    {
      match IndexByEmail(docs, email)
      case None => None
      case Some(k) => Some(docs[k])
    }

    /** `userModel.findByIdAndUpdate(id, {cartData})` */
    method UpdateCart(id: UserId, cart: Cart)
      requires Valid()
      modifies this
      ensures Valid()
      ensures docs == WithCart(old(docs), id, cart)
    {
      docs := WithCart(docs, id, cart);
      assert forall j :: 0 <= j < |docs| ==> docs[j].id == old(docs)[j].id && docs[j].email == old(docs)[j].email;
    }

    /** `new userModel(u).save()`: the unique indexes on `_id` and `email` refuse a duplicate. */
    method Insert(u: User) returns (r: Result<User>)
      requires Valid()
      modifies this
      ensures Valid()
      ensures old(FindById(u.id)).Some? || old(FindOne(u.email)).Some? ==>
        r == Err(DuplicateKeyMessage) && docs == old(docs)
      ensures old(FindById(u.id)).None? && old(FindOne(u.email)).None? ==>
        r == Ok(u) && docs == old(docs) + [u]
    {
      if FindById(u.id).Some? || FindOne(u.email).Some? {
        return Err(DuplicateKeyMessage);
      }
      docs := docs + [u];
      r := Ok(u);
    }
  }
}
