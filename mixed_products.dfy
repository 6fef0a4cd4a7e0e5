/** The mixed-scenarios sample's product slice: the in-memory
    `ProductRepositoryAdapter` (a `HashMap` updated in place) and the
    `ProductService` that uses it through the `ProductRepository` port. */
module MixedProducts {
  import opened Wrappers

  /** The sample's `Product`: three strings. */
  datatype Product = Product(id: string, name: string, description: string)

  /** `ProductRepositoryAdapter`. `ProductEntity` is not part of this model; its
      conversions are taken to copy the three fields, so the map stores the
      product itself under its id. */
  class ProductRepositoryAdapter {
    /** The `storage` HashMap. */
    var storage: map<string, Product>

    /** Every entry is stored under the id of the product it holds. */
    ghost predicate Valid()
      reads this
    {
      forall id :: id in storage ==> storage[id].id == id
    }

    constructor ()
      ensures Valid() && storage == map[]
    {
      storage := map[];
    }

    /** `save`: put the product under its id, replacing any previous entry
        with that id and leaving every other entry alone. */
    method Save(product: Product) returns (saved: Product)
      requires Valid()
      modifies this
      ensures Valid()
      ensures saved == product
      ensures storage == old(storage)[product.id := product]
    {
      storage := storage[product.id := product];
      saved := product;
    }

    /** `findById`: present exactly when the id is a key. */
    method FindById(id: string) returns (r: Option<Product>)
      ensures r.Some? <==> id in storage
      ensures r.Some? ==> r.value == storage[id]
    {
      if id in storage {
        r := Some(storage[id]);
      } else {
        r := None;
      }
    }

    /** `findAll`: one product per stored entry, in the map's (unspecified) order. */
    method FindAll() returns (r: seq<Product>)
      requires Valid()
      ensures |r| == |storage|
      ensures forall p :: p in r <==> p in storage.Values
      ensures forall i, j :: 0 <= i < j < |r| ==> r[i] != r[j]
    {
      r := [];
      var unseen := storage.Keys;
      while unseen != {}
        invariant unseen <= storage.Keys
        invariant |r| + |unseen| == |storage.Keys|
        invariant forall i :: 0 <= i < |r| ==> r[i].id in storage && r[i].id !in unseen && storage[r[i].id] == r[i]
        invariant forall id :: id in storage && id !in unseen ==> storage[id] in r
        invariant forall i, j :: 0 <= i < j < |r| ==> r[i] != r[j]
        decreases unseen
      {
        var id :| id in unseen;
        r := r + [storage[id]];
        unseen := unseen - {id};
      }
      assert storage.Keys == storage.Keys - unseen;
    }

    /** `deleteById`: remove that key only; nothing happens when it is absent, so a repeated call changes nothing. */
    method DeleteById(id: string)
      requires Valid()
      modifies this
      ensures Valid()
      ensures storage == old(storage) - {id}
      ensures id !in storage
      ensures id !in old(storage) ==> storage == old(storage)
    {
      storage := storage - {id};
    }
  }

  /** The sample's `ProductService`, which reaches the adapter through the port. */
  class ProductService {
    const repository: ProductRepositoryAdapter

    constructor (repository: ProductRepositoryAdapter)
      ensures this.repository == repository
    {
      this.repository := repository;
    }

    /** `createProduct`: save a product with a fresh id (`newId`, the string
        form of `UUID.randomUUID()`) and return what `save` returns. */
    method CreateProduct(name: string, description: string, newId: string) returns (saved: Product)
      requires repository.Valid()
      modifies repository
      ensures repository.Valid()
      ensures saved == Product(newId, name, description)
      ensures repository.storage == old(repository.storage)[newId := saved]
    {
      var product := Product(newId, name, description);
      saved := repository.Save(product);
    }

    /** `getAllProducts`: the repository's `findAll`, returned as it is. */
    method GetAllProducts() returns (r: seq<Product>)
      requires repository.Valid()
      ensures |r| == |repository.storage|
      ensures forall p :: p in r <==> p in repository.storage.Values
    {
      r := repository.FindAll();
    }

    /** `getProduct`: the stored product, or a `RuntimeException` whose message names the id. */
    method GetProduct(id: string) returns (r: Result<Product, string>)
      ensures r.Success? <==> id in repository.storage
      ensures r.Success? ==> r.value == repository.storage[id]
      ensures r.Failure? ==> r.error == "Product not found: " + id
    {
      var found := repository.FindById(id);
      if found.Some? {
        r := Success(found.value);
      } else {
        r := Failure("Product not found: " + id);
      }
    }
  }
}
