/** The product catalog the storefront lists, and the optional-value type used
    for "no product selected". */
module Catalog {

  datatype Option<+T> = None | Some(value: T)

  /** A catalog entry. The image URL the app hands to the image loader is not
      modelled; only the fields the state logic reads are kept. */
  datatype Product = Product(id: string, name: string, price: int)

  /** The fixed, ordered seed catalog (App.js:8-39). */
  const Products: seq<Product> := [
    Product("1", "Blue T-Shirt", 1200),
    Product("2", "White Sneakers", 2500),
    Product("3", "Smart Watch", 1800),
    Product("4", "Leather Wallet", 900),
    Product("5", "Black Hoodie", 1600)
  ]

  /** No two entries of a catalog share an id. */
  predicate UniqueIds(ps: seq<Product>) {
    forall i, j :: 0 <= i < j < |ps| ==> ps[i].id != ps[j].id
  }

  /** The seed catalog has five products with distinct ids, and the third one is
      the smart watch at 1800. */
  lemma SeedCatalog()
    ensures |Products| == 5 && UniqueIds(Products)
    ensures Products[2] == Product("3", "Smart Watch", 1800)
  {
  }
}
