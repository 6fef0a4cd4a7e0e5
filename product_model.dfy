/** The immutable `Product` of the e-commerce core. Its getters are the
    datatype destructors. */
module ProductModel {
  import opened JavaTypes

  /** `Product`; the `BigDecimal` price is an exact `real`. */
  datatype Product = Product(id: Uuid, name: string, description: string, price: real, stockQuantity: Int32)

  /** `Product.updateStock`: a new product that differs from the receiver in its stock only. */
  function UpdateStock(product: Product, newQuantity: Int32): (r: Product)
    ensures r.stockQuantity == newQuantity
    ensures r.(stockQuantity := product.stockQuantity) == product
  {
    Product(product.id, product.name, product.description, product.price, newQuantity)
  }

  /** Updating the stock twice keeps only the second quantity. */
  lemma UpdateStockLastWins(product: Product, first: Int32, second: Int32)
    ensures UpdateStock(UpdateStock(product, first), second) == UpdateStock(product, second)
  {
  }
}
