/** `ProductService`, the product use case of the e-commerce core. The
    `ProductRepository` port is a map from product id to product. */
module ProductUseCase {
  import opened Wrappers
  import opened JavaTypes
  import opened JavaStrings
  import opened ProductModel

  /** The exceptions the service throws. */
  datatype ProductError =
    | ProductNotFound(id: Uuid)
    | InsufficientStock(message: string)

  const NegativeStockMessage := "Stock quantity cannot be negative"

  class ProductService {
    /** The `ProductRepository` port: the stored products by id. */
    var products: map<Uuid, Product>

    /** The repository stores each product under its own id. */
    ghost predicate Valid()
      reads this
    {
      forall id :: id in products ==> products[id].id == id
    }

    constructor (initialProducts: map<Uuid, Product>)
      requires forall id :: id in initialProducts ==> initialProducts[id].id == id
      ensures Valid() && products == initialProducts
    {
      products := initialProducts;
    }

    /** `ProductRepository.save`: store the product under its id and return it. */
    method Save(product: Product) returns (saved: Product)
      requires Valid()
      modifies this
      ensures Valid()
      ensures saved == product
      ensures products == old(products)[product.id := product]
    {
      products := products[product.id := product];
      saved := product;
    }

    /** `createProduct`: save a product with a fresh id (`newId`, the value of
        `UUID.randomUUID()`) and the given fields; the stock is not checked. */
    method CreateProduct(name: string, description: string, price: real, stockQuantity: Int32, newId: Uuid)
      returns (saved: Product)
      requires Valid()
      modifies this
      ensures Valid()
      ensures saved == Product(newId, name, description, price, stockQuantity)
      ensures products == old(products)[newId := saved]
    {
      var product := Product(newId, name, description, price, stockQuantity);
      saved := Save(product);
    }

    /** `getProduct`: the stored product, or `ProductNotFoundException`. */
    method GetProduct(id: Uuid) returns (r: Result<Product, ProductError>)
      ensures r.Success? <==> id in products
      ensures r.Success? ==> r.value == products[id]
      ensures r.Failure? ==> r.error == ProductNotFound(id)
    {
      if id in products {
        r := Success(products[id]);
      } else {
        r := Failure(ProductNotFound(id));
      }
    }

    /** `getAllProducts`: the repository's `findAll`, returned as it is. */
    method GetAllProducts() returns (r: set<Product>)
      ensures r == products.Values
    {
      r := products.Values;
    }

    /** `updateStock`: the lookup comes first, so a missing id wins over a
        negative quantity; a negative quantity saves nothing; otherwise the
        product is saved with the new stock and nothing else changed. */
    method UpdateStock(productId: Uuid, newQuantity: Int32) returns (r: Result<Product, ProductError>)
      requires Valid()
      modifies this
      ensures Valid()
      ensures productId !in old(products) ==> r == Failure(ProductNotFound(productId)) && products == old(products)
      ensures productId in old(products) && newQuantity < 0 ==>
        r == Failure(InsufficientStock(NegativeStockMessage)) && products == old(products)
      ensures productId in old(products) && newQuantity >= 0 ==>
        && r == Success(ProductModel.UpdateStock(old(products)[productId], newQuantity))
        && products == old(products)[productId := r.value]
    {
      var found := GetProduct(productId);
      if found.Failure? {
        return Failure(found.error);
      }
      if newQuantity < 0 {
        return Failure(InsufficientStock(NegativeStockMessage));
      }
      var updatedProduct := ProductModel.UpdateStock(found.value, newQuantity);
      var saved := Save(updatedProduct);
      r := Success(saved);
    }

    /** `searchProducts`: the repository's `findByNameContaining`, read as the
        products whose name contains `name`. */
    method SearchProducts(name: string) returns (r: set<Product>)
      ensures forall p :: p in r <==> p in products.Values && Contains(p.name, name)
    {
      r := set id | id in products && Contains(products[id].name, name) :: products[id];
    }
  }
}
