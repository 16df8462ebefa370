/** The product document of `productModel`, as the backend stores it and the storefront
    receives it from `/api/product/list`. Prices are whole numbers here. */
module Products {

  datatype Product = Product(
    id: string,
    name: string,
    description: string,
    price: int,
    image: seq<string>,
    category: string,
    subCategory: string,
    sizes: seq<string>,
    bestseller: bool,
    date: int)
}
