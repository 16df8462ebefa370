/** The admin panel's add-product form: its fields, the size and bestseller toggles, the
    multipart body it sends, and which fields a successful submit clears. */
module AddForm {
  import opened Wrappers
  import opened Seqs
  import Json

  /** A file picked in one of the four image inputs. */
  datatype File = File(name: string)

  /** The entry names the form uses. */
  datatype Key = Name | Description | Price | Category | SubCategory | Bestseller | Sizes
               | Image1 | Image2 | Image3 | Image4

  /** One entry of a `FormData`. */
  datatype FormPart = TextField(key: Key, value: string) | FileField(key: Key, file: File)

  /** The text value the server reads for `key`: the last text entry under that key. */
  function TextValue(parts: seq<FormPart>, key: Key): Option<string> {
    if parts == [] then None
    else
      var p := parts[|parts| - 1];
      if p.TextField? && p.key == key then Some(p.value) else TextValue(parts[..|parts| - 1], key)
  }

  /** The file the server receives under `key`, if one was appended. */
  function FileValue(parts: seq<FormPart>, key: Key): Option<File> {
    if parts == [] then None
    else
      var p := parts[|parts| - 1];
      if p.FileField? && p.key == key then Some(p.file) else FileValue(parts[..|parts| - 1], key)
  }

  function FileCount(parts: seq<FormPart>): nat {
    if parts == [] then 0 else FileCount(parts[..|parts| - 1]) + (if parts[|parts| - 1].FileField? then 1 else 0)
  }

  /** Appending one entry changes what is read under its own key only. */
  lemma Appended(parts: seq<FormPart>, p: FormPart)
    ensures forall key :: TextValue(parts + [p], key) ==
                            if p.TextField? && p.key == key then Some(p.value) else TextValue(parts, key)
    ensures forall key :: FileValue(parts + [p], key) ==
                            if p.FileField? && p.key == key then Some(p.file) else FileValue(parts, key)
    ensures FileCount(parts + [p]) == FileCount(parts) + if p.FileField? then 1 else 0
  {
    assert (parts + [p])[..|parts|] == parts;
  }

  /** `formData.append(key, bool)` sends the boolean's text. */
  function BoolText(b: bool): string {
    if b then "true" else "false"
  }

  function Selected(image: Option<File>): nat {
    if image.Some? then 1 else 0
  }

  /** What the server reads from `parts`: each text field under its own name, the flag as
      "true" or "false", the sizes as JSON, and exactly the chosen images. */
  predicate Carries(parts: seq<FormPart>, name: string, description: string, price: string,
                    category: string, subCategory: string, bestseller: bool, sizes: seq<string>,
                    image1: Option<File>, image2: Option<File>, image3: Option<File>, image4: Option<File>)
  {
    && TextValue(parts, Name) == Some(name)
    && TextValue(parts, Description) == Some(description)
    && TextValue(parts, Price) == Some(price)
    && TextValue(parts, Category) == Some(category)
    && TextValue(parts, SubCategory) == Some(subCategory)
    && TextValue(parts, Bestseller) == Some(BoolText(bestseller))
    && TextValue(parts, Sizes) == Some(Json.Stringify(sizes))
    && FileValue(parts, Image1) == image1 && FileValue(parts, Image2) == image2
    && FileValue(parts, Image3) == image3 && FileValue(parts, Image4) == image4
    && FileCount(parts) == Selected(image1) + Selected(image2) + Selected(image3) + Selected(image4)
    && |parts| == 7 + FileCount(parts)
  }

  /** The sizes the form offers. */
  const OfferedSizes: seq<string> := ["S", "M", "L", "XL", "XXL"]

  /** Clicking offered sizes keeps the selection a set of offered sizes. */
  lemma ClickKeepsOfferedSizes(sizes: seq<string>, size: string)
    requires NoDuplicates(sizes) && (forall x :: x in sizes ==> x in OfferedSizes) && size in OfferedSizes
    ensures NoDuplicates(Toggled(sizes, size))
    ensures forall x :: x in Toggled(sizes, size) ==> x in OfferedSizes
  {
  }

  class Form {
    var image1: Option<File>
    var image2: Option<File>
    var image3: Option<File>
    var image4: Option<File>
    var name: string
    var description: string
    var price: string
    var category: string
    var subCategory: string
    var bestseller: bool
    var sizes: seq<string>

    /** The form as it first appears: no images, empty text, "Men" / "Topwear", no sizes,
        not a bestseller. */
    constructor()
      ensures image1.None? && image2.None? && image3.None? && image4.None?
      ensures name == "" && description == "" && price == ""
      ensures category == "Men" && subCategory == "Topwear" && !bestseller && sizes == []
    {
      image1, image2, image3, image4 := None, None, None, None;
      name, description, price := "", "", "";
      category, subCategory := "Men", "Topwear";
      bestseller := false;
      sizes := [];
    }

    /** Clicking a size: it is removed if chosen, added at the end otherwise. */
    method ClickSize(size: string)
      modifies this
      ensures sizes == Toggled(old(sizes), size)
      ensures image1 == old(image1) && image2 == old(image2) && image3 == old(image3) && image4 == old(image4)
      ensures name == old(name) && description == old(description) && price == old(price)
      ensures category == old(category) && subCategory == old(subCategory) && bestseller == old(bestseller)
    {
      sizes := Toggled(sizes, size);
    }

    /** The bestseller check-box flips the flag and nothing else. */
    method ToggleBestseller()
      modifies this
      ensures bestseller == !old(bestseller)
      ensures image1 == old(image1) && image2 == old(image2) && image3 == old(image3) && image4 == old(image4)
      ensures name == old(name) && description == old(description) && price == old(price)
      ensures category == old(category) && subCategory == old(subCategory) && sizes == old(sizes)
    {
      bestseller := !bestseller;
    }

    /** The multipart body `onSubmitHandler` builds: every text field under its own name, the
        flag as "true" or "false", the sizes as JSON, and only the chosen images. */
    method BuildFormData() returns (formData: seq<FormPart>)
      ensures Carries(formData, name, description, price, category, subCategory, bestseller, sizes,
                      image1, image2, image3, image4)
    {
      formData := TextFields(name, description, price, category, subCategory, bestseller, sizes);
      formData := AppendImage(formData, Image1, image1);
      formData := AppendImage(formData, Image2, image2);
      formData := AppendImage(formData, Image3, image3);
      formData := AppendImage(formData, Image4, image4);
    }

    /** `onSubmitHandler` once the request has settled. `response` is the reply's
        `{success, message}`, or `Err` when the request throws. Success clears the name,
        description, price and images; anything else changes no field. */
    method OnSubmit(response: Result<(bool, string)>) returns (sent: seq<FormPart>)
      modifies this
      ensures Carries(sent, old(name), old(description), old(price), old(category), old(subCategory),
                      old(bestseller), old(sizes), old(image1), old(image2), old(image3), old(image4))
      ensures response.Ok? && response.value.0 ==>
        && name == "" && description == "" && price == ""
        && image1.None? && image2.None? && image3.None? && image4.None?
        && category == old(category) && subCategory == old(subCategory)
        && sizes == old(sizes) && bestseller == old(bestseller)
      ensures !(response.Ok? && response.value.0) ==>
        && name == old(name) && description == old(description) && price == old(price)
        && image1 == old(image1) && image2 == old(image2) && image3 == old(image3) && image4 == old(image4)
        && category == old(category) && subCategory == old(subCategory)
        && sizes == old(sizes) && bestseller == old(bestseller)
    {
      sent := BuildFormData();
      if response.Ok? && response.value.0 {
        name := "";
        description := "";
        image1, image2, image3, image4 := None, None, None, None;
        price := "";
      }
    }
  }

  /** The seven text entries, in the order the handler appends them. */
  method TextFields(name: string, description: string, price: string, category: string,
                    subCategory: string, bestseller: bool, sizes: seq<string>) returns (formData: seq<FormPart>)
    ensures TextValue(formData, Name) == Some(name)
    ensures TextValue(formData, Description) == Some(description)
    ensures TextValue(formData, Price) == Some(price)
    ensures TextValue(formData, Category) == Some(category)
    ensures TextValue(formData, SubCategory) == Some(subCategory)
    ensures TextValue(formData, Bestseller) == Some(BoolText(bestseller))
    ensures TextValue(formData, Sizes) == Some(Json.Stringify(sizes))
    ensures forall k :: FileValue(formData, k).None?
    ensures FileCount(formData) == 0 && |formData| == 7
  {
    formData := AppendText([], Name, name);
    formData := AppendText(formData, Description, description);
    formData := AppendText(formData, Price, price);
    formData := AppendText(formData, Category, category);
    formData := AppendText(formData, SubCategory, subCategory);
    formData := AppendText(formData, Bestseller, BoolText(bestseller));
    formData := AppendText(formData, Sizes, Json.Stringify(sizes));
  }

  method AppendText(parts: seq<FormPart>, key: Key, value: string) returns (r: seq<FormPart>)
    ensures TextValue(r, key) == Some(value)
    ensures forall k :: k != key ==> TextValue(r, k) == TextValue(parts, k)
    ensures forall k :: FileValue(r, k) == FileValue(parts, k)
    ensures FileCount(r) == FileCount(parts) && |r| == |parts| + 1
  {
    r := parts + [TextField(key, value)];
    Appended(parts, TextField(key, value));
  }

  /** `image && formData.append(key, image)` */
  method AppendImage(parts: seq<FormPart>, key: Key, image: Option<File>) returns (r: seq<FormPart>)
    requires FileValue(parts, key).None?
    ensures FileValue(r, key) == image
    ensures forall k :: k != key ==> FileValue(r, k) == FileValue(parts, k)
    ensures forall k :: TextValue(r, k) == TextValue(parts, k)
    ensures FileCount(r) == FileCount(parts) + Selected(image) && |r| == |parts| + Selected(image)
  {
    r := parts;
    if image.Some? {
      r := parts + [FileField(key, image.value)];
      Appended(parts, FileField(key, image.value));
    }
  }
}
