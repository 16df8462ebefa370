/** The `products` collection behind `productModel`: documents keyed by a unique id. */
module ProductStore {
  import opened Wrappers
  import opened Seqs
  import opened MongoErrors
  import opened Products

  ghost predicate UniqueIds(docs: seq<Product>) {
    forall i, j :: 0 <= i < j < |docs| ==> docs[i].id != docs[j].id
  }

  /** Position of the document with this id. */
  function IndexOfId(docs: seq<Product>, id: string): (r: Option<nat>)
    ensures r.Some? ==> r.value < |docs| && docs[r.value].id == id
    ensures r.None? <==> forall j :: 0 <= j < |docs| ==> docs[j].id != id
  {
    IndexWhere(docs, (p: Product) => p.id == id)
  }

  predicate HasOtherId(id: string, p: Product) { p.id != id }

  /** The documents once the one with `id` is deleted; the rest keep their order. */
  function WithoutId(docs: seq<Product>, id: string): (r: seq<Product>)
    ensures forall p :: p in r <==> p in docs && p.id != id
    ensures IsSubsequence(r, docs)
  {
    FilterIsSubsequence(docs, p => HasOtherId(id, p));
    FilterBy(docs, p => HasOtherId(id, p))
  }

  class ProductCollection {
    var docs: seq<Product>

    ghost predicate Valid()
      reads this
    {
      UniqueIds(docs)
    }

    constructor ()
      ensures Valid() && docs == []
    {
      docs := [];
    }

    /** `productModel.findById(id)`: the document, or `null`. */
    function FindById(id: string): (r: Option<Product>)
      reads this
      ensures r.Some? <==> exists j :: 0 <= j < |docs| && docs[j].id == id
      ensures r.Some? ==> r.value in docs && r.value.id == id
    {
      match IndexOfId(docs, id)
      case None => None
      case Some(k) => Some(docs[k])
    }

    /** `new productModel(p).save()`: the unique index on `_id` refuses a duplicate. */
    method Insert(p: Product) returns (r: Result<Product>)
      requires Valid()
      modifies this
      ensures Valid()
      ensures old(FindById(p.id)).Some? ==> r == Err(DuplicateKeyMessage) && docs == old(docs)
      ensures old(FindById(p.id)).None? ==> r == Ok(p) && docs == old(docs) + [p]
    {
      if FindById(p.id).Some? {
        return Err(DuplicateKeyMessage);
      }
      docs := docs + [p];
      r := Ok(p);
    }

    /** `productModel.findByIdAndDelete(id)`: removes the document if there is one and returns
        it; an unknown id changes nothing. */
    method FindByIdAndDelete(id: string) returns (deleted: Option<Product>)
      requires Valid()
      modifies this
      ensures Valid()
      ensures deleted == old(FindById(id))
      ensures docs == WithoutId(old(docs), id)
      ensures deleted.None? ==> docs == old(docs)
    {
      deleted := FindById(id);
      var rest := WithoutId(docs, id);
      if deleted.None? {
        FilterKeepsAll(docs, p => HasOtherId(id, p));
      }
      SubsequenceKeepsUnique(rest, docs);
      docs := rest;
    }
  }

  /** Deleting documents keeps the ids of the rest distinct. */
  lemma {:induction false} SubsequenceKeepsUnique(a: seq<Product>, b: seq<Product>)
    requires IsSubsequence(a, b) && UniqueIds(b)
    ensures UniqueIds(a)
    decreases |b|
  {
    if a != [] && b != [] {
      assert UniqueIds(b[1..]) by {
        forall i, j | 0 <= i < j < |b[1..]| ensures b[1..][i].id != b[1..][j].id {
          assert b[1..][i] == b[i + 1] && b[1..][j] == b[j + 1];
        }
      }
      if a[0] == b[0] && IsSubsequence(a[1..], b[1..]) {
        SubsequenceKeepsUnique(a[1..], b[1..]);
        SubsequenceContained(a[1..], b[1..]);
        forall j | 0 < j < |a| ensures a[0].id != a[j].id {
          assert a[j] == a[1..][j - 1];
          assert a[j] in a[1..];
          assert a[j] in b[1..];
          var k :| 0 <= k < |b[1..]| && b[1..][k] == a[j];
          assert b[k + 1] == a[j];
        }
      } else {
        SubsequenceKeepsUnique(a, b[1..]);
      }
    }
  }
}
