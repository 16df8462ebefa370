/** The product handlers: `addProduct` builds a product record from the multipart request,
    `removeProduct`, `singleProduct` and `listProducts` wrap one store call each. */
module ProductController {
  import opened Wrappers
  import opened Seqs
  import opened Products
  import opened ProductStore
  import opened MongoErrors
  import Json
  import AddForm

  /** A file multer stored for one image field. */
  datatype UploadedFile = UploadedFile(path: string)

  /** `req.body` and `req.files` of `/api/product/add`. */
  datatype AddRequest = AddRequest(
    name: string,
    description: string,
    price: string,
    category: string,
    subCategory: string,
    sizes: string,
    bestseller: string,
    image1: Option<UploadedFile>,
    image2: Option<UploadedFile>,
    image3: Option<UploadedFile>,
    image4: Option<UploadedFile>)

  predicate IsPresent<T>(o: Option<T>) { o.Some? }

  /** `[image1, ..., image4].filter(item => item !== undefined)` on the slots given. */
  function Present<T(!new)>(slots: seq<Option<T>>): (r: seq<T>)
    ensures |r| == |FilterBy(slots, IsPresent)|
    ensures forall k :: 0 <= k < |r| ==> FilterBy(slots, IsPresent)[k] == Some(r[k])
  {
    if slots == [] then []
    else
      var rest := Present(slots[1..]);
      assert FilterBy(slots, IsPresent) == (if IsPresent(slots[0]) then [slots[0]] else []) + FilterBy(slots[1..], IsPresent);
      if slots[0].Some? then [slots[0].value] + rest else rest
  }

  /** The image files of the request: exactly the filled slots, in slot order. */
  function Images(req: AddRequest): (r: seq<UploadedFile>)
    ensures |r| <= 4
    ensures forall f :: f in r <==> Some(f) in [req.image1, req.image2, req.image3, req.image4]
  {
    var slots := [req.image1, req.image2, req.image3, req.image4];
    var r := Present(slots);
    assert forall f :: f in r <==> Some(f) in FilterBy(slots, IsPresent) by {
      forall f ensures f in r <==> Some(f) in FilterBy(slots, IsPresent) {
        if Some(f) in FilterBy(slots, IsPresent) {
          var k :| 0 <= k < |FilterBy(slots, IsPresent)| && FilterBy(slots, IsPresent)[k] == Some(f);
          assert r[k] == f;
        }
      }
    }
    r
  }

  /** `Promise.all(images.map(upload))`: every image's URL, position by position, or the
      failure of the first image whose upload fails. */
  function UploadAll(images: seq<UploadedFile>, upload: UploadedFile -> Result<string>): (r: Result<seq<string>>)
    ensures r.Ok? ==> |r.value| == |images| && forall k :: 0 <= k < |images| ==> upload(images[k]) == Ok(r.value[k])
    ensures r.Err? <==> exists k :: 0 <= k < |images| && upload(images[k]).Err?
    ensures r.Err? ==> exists k :: 0 <= k < |images| && upload(images[k]) == Err(r.message)
  {
    if images == [] then Ok([])
    else match upload(images[0])
      case Err(m) => Err(m)
      case Ok(url) =>
        match UploadAll(images[1..], upload)
        case Err(m) =>
          assert forall k :: 0 <= k < |images[1..]| ==> images[1..][k] == images[k + 1];
          Err(m)
        case Ok(urls) =>
          assert forall k :: 1 <= k < |images| ==> images[k] == images[1..][k - 1];
          Ok([url] + urls)
  }

  /** `productData`: the request's text fields, the price through `Number`, the flag true
      exactly for the text "true", the sizes parsed from JSON, the uploaded URLs and the
      time. A sizes text that is not a JSON array of strings makes the handler fail. */
  function NewProduct(req: AddRequest, imagesUrl: seq<string>, id: string, toNumber: string -> int, now: int)
    : (r: Result<Product>)
    ensures r.Ok? <==> Json.Parse(req.sizes).Ok?
    ensures r.Err? ==> r == Err(Json.Parse(req.sizes).message)
    ensures r.Ok? ==> (r.value.bestseller <==> req.bestseller == "true")
    ensures r.Ok? ==> r.value.sizes == Json.Parse(req.sizes).value
    ensures r.Ok? ==> r.value.image == imagesUrl && r.value.price == toNumber(req.price) && r.value.date == now
    ensures r.Ok? ==> r.value.name == req.name && r.value.description == req.description
    ensures r.Ok? ==> r.value.category == req.category && r.value.subCategory == req.subCategory && r.value.id == id
  {
    match Json.Parse(req.sizes)
    case Err(m) => Err(m)
    case Ok(sizes) =>
      Ok(Product(id, req.name, req.description, toNumber(req.price), imagesUrl, req.category,
                 req.subCategory, sizes, req.bestseller == "true", now))
  }

  /** `addProduct`. Uploads come first, then the record is built and saved. Any failure answers
      `success: false` with its message and saves nothing. `upload` stands for the image
      host, `toNumber` for `Number`, `now` for `Date.now()`, `newId` for the id the store
      assigns, and `dbFault` for a save that throws. */
  method AddProduct(store: ProductCollection, req: AddRequest, upload: UploadedFile -> Result<string>,
                    toNumber: string -> int, now: int, newId: string, dbFault: Option<string>)
    returns (reply: Reply<string>)
    requires store.Valid()
    modifies store
    ensures store.Valid()
    ensures reply.Failure? ==> store.docs == old(store.docs)
    ensures UploadAll(Images(req), upload).Err? ==> reply == Failure(UploadAll(Images(req), upload).message)
    ensures UploadAll(Images(req), upload).Ok? && Json.Parse(req.sizes).Err? ==>
      reply == Failure(Json.Parse(req.sizes).message)
    ensures UploadAll(Images(req), upload).Ok? && Json.Parse(req.sizes).Ok? && dbFault.Some? ==>
      reply == Failure(dbFault.value)
    ensures (&& UploadAll(Images(req), upload).Ok? && Json.Parse(req.sizes).Ok? && dbFault.None?
             && old(store.FindById(newId)).Some?) ==>
      reply == Failure(DuplicateKeyMessage)
    ensures reply.Success? <==>
      && UploadAll(Images(req), upload).Ok? && Json.Parse(req.sizes).Ok?
      && dbFault.None? && old(store.FindById(newId)).None?
    ensures reply.Success? ==> reply.body == "Product Added"
    ensures reply.Success? ==>
      store.docs == old(store.docs) + [NewProduct(req, UploadAll(Images(req), upload).value, newId, toNumber, now).value]
  {
    var images := Images(req);
    var imagesUrl := UploadAll(images, upload);
    if imagesUrl.Err? {
      return Failure(imagesUrl.message);
    }
    var productData := NewProduct(req, imagesUrl.value, newId, toNumber, now);
    if productData.Err? {
      return Failure(productData.message);
    }
    if dbFault.Some? {
      return Failure(dbFault.value);
    }
    var saved := store.Insert(productData.value);
    if saved.Err? {
      return Failure(saved.message);
    }
    reply := Success("Product Added");
  }

  /** `removeProduct`: answers success whenever the delete does not throw, whether or not a
      product had that id. */
  method RemoveProduct(store: ProductCollection, id: string, dbFault: Option<string>) returns (reply: Reply<string>)
    requires store.Valid()
    modifies store
    ensures store.Valid()
    ensures dbFault.Some? ==> reply == Failure(dbFault.value) && store.docs == old(store.docs)
    ensures dbFault.None? ==> reply == Success("Product Removed") && store.docs == WithoutId(old(store.docs), id)
    ensures dbFault.None? && old(store.FindById(id)).None? ==> store.docs == old(store.docs)
  {
    if dbFault.Some? {
      return Failure(dbFault.value);
    }
    var _ := store.FindByIdAndDelete(id);
    reply := Success("Product Removed");
  }

  /** `singleProduct`: success with whatever the lookup returned, `null` included. */
  method SingleProduct(store: ProductCollection, id: string, dbFault: Option<string>) returns (reply: Reply<Option<Product>>)
    ensures dbFault.Some? ==> reply == Failure(dbFault.value)
    ensures dbFault.None? ==> reply.Success? && reply.body == store.FindById(id)
    ensures reply.Success? && reply.body.Some? ==> reply.body.value in store.docs && reply.body.value.id == id
    ensures reply.Success? && reply.body.None? ==> forall j :: 0 <= j < |store.docs| ==> store.docs[j].id != id
  {
    if dbFault.Some? {
      return Failure(dbFault.value);
    }
    reply := Success(store.FindById(id));
  }

  /** `listProducts`: every stored product, in store order. */
  method ListProducts(store: ProductCollection, dbFault: Option<string>) returns (reply: Reply<seq<Product>>)
    ensures dbFault.Some? ==> reply == Failure(dbFault.value)
    ensures dbFault.None? ==> reply == Success(store.docs)
  {
    if dbFault.Some? {
      return Failure(dbFault.value);
    }
    reply := Success(store.docs);
  }

  /** The request multer hands over for a form body: each text field and each image slot read
      under its own name, `None` when a text field is missing. */
  function RequestOf(parts: seq<AddForm.FormPart>, stored: AddForm.File -> UploadedFile): Option<AddRequest> {
    var name := AddForm.TextValue(parts, AddForm.Name);
    var description := AddForm.TextValue(parts, AddForm.Description);
    var price := AddForm.TextValue(parts, AddForm.Price);
    var category := AddForm.TextValue(parts, AddForm.Category);
    var subCategory := AddForm.TextValue(parts, AddForm.SubCategory);
    var sizes := AddForm.TextValue(parts, AddForm.Sizes);
    var bestseller := AddForm.TextValue(parts, AddForm.Bestseller);
    if name.None? || description.None? || price.None? || category.None? || subCategory.None?
       || sizes.None? || bestseller.None? then None
    else
      Some(AddRequest(name.value, description.value, price.value, category.value, subCategory.value,
                      sizes.value, bestseller.value,
                      StoredAs(AddForm.FileValue(parts, AddForm.Image1), stored),
                      StoredAs(AddForm.FileValue(parts, AddForm.Image2), stored),
                      StoredAs(AddForm.FileValue(parts, AddForm.Image3), stored),
                      StoredAs(AddForm.FileValue(parts, AddForm.Image4), stored)))
  }

  function StoredAs(f: Option<AddForm.File>, stored: AddForm.File -> UploadedFile): Option<UploadedFile> {
    if f.Some? then Some(stored(f.value)) else None
  }

  /** From the admin form to the stored record: whatever the form holds, the body it sends
      yields a product whose name, description, category, type, bestseller flag and sizes
      are the form's own. */
  lemma FormBuildsProduct(parts: seq<AddForm.FormPart>, name: string, description: string, price: string,
                          category: string, subCategory: string, bestseller: bool, sizes: seq<string>,
                          image1: Option<AddForm.File>, image2: Option<AddForm.File>,
                          image3: Option<AddForm.File>, image4: Option<AddForm.File>,
                          stored: AddForm.File -> UploadedFile, imagesUrl: seq<string>, id: string,
                          toNumber: string -> int, now: int)
    requires AddForm.Carries(parts, name, description, price, category, subCategory, bestseller, sizes,
                             image1, image2, image3, image4)
    ensures RequestOf(parts, stored).Some?
    ensures var r := NewProduct(RequestOf(parts, stored).value, imagesUrl, id, toNumber, now);
      && r.Ok?
      && r.value.name == name && r.value.description == description
      && r.value.category == category && r.value.subCategory == subCategory
      && r.value.bestseller == bestseller && r.value.sizes == sizes
      && r.value.price == toNumber(price)
  {
    Json.ParseStringify(sizes);
  }
}
