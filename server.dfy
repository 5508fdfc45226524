/** The tool server itself: the module-level `products` dictionary, updated in
    place by the create and delete tools and read by the get and count tools.
    Each tool's answer and new state are those of the matching function of
    module Catalog, whose properties are proved there.
 */
module ProductManager {
  import opened Catalog

  class ProductStore {
    /** The `products` dictionary. */
    var products: Store

    /** The server starts with no products. */
    constructor ()
      ensures products == map[]
    {
      products := map[];
    }

    /** Tool `create_product`. */
    method CreateProduct(id: string, name: string, description: string, price: int) returns (r: Reply)
      modifies this
      ensures (products, r) == Create(old(products), id, name, description, price)
      ensures id in old(products) ==> products == old(products) && r == Error(AlreadyExists)
      ensures id !in old(products) ==>
                products == old(products)[id := Product(name, description, price)] &&
                r == Registered(CreatedStatus, Product(name, description, price))
    {
      if id in products {
        return Error(AlreadyExists);
      }
      products := products[id := Product(name, description, price)];
      r := Registered(CreatedStatus, products[id]);
    }

    /** Tool `delete_product`. */
    method DeleteProduct(id: string) returns (r: Reply)
      modifies this
      ensures (products, r) == Delete(old(products), id)
      ensures id !in old(products) ==> products == old(products) && r == Error(NotFound)
      ensures id in old(products) ==>
                products == old(products) - {id} && r == Removed(DeletedStatus) &&
                |products| == |old(products)| - 1
    {
      if id !in products {
        return Error(NotFound);
      }
      products := products - {id};
      r := Removed(DeletedStatus);
    }

    /** Tool `get_product`; it changes nothing. */
    method GetProduct(id: string) returns (r: Reply)
      ensures r == Get(products, id)
      ensures r.Found? <==> id in products
      ensures id in products ==> r == Found(id, products[id].name, products[id].description, products[id].price)
      ensures id !in products ==> r == Error(NotFound)
    {
      if id !in products {
        return Error(NotFound);
      }
      var p := products[id];
      r := Found(id, p.name, p.description, p.price);
    }

    /** Tool `count_products`; it changes nothing. */
    method CountProducts() returns (r: Reply)
      ensures r == Count(products)
      ensures r == Total(|products|)
    {
      r := Total(|products|);
    }
  }

  /** Client view: a creation answers with the new record, a second creation
      of the same id is refused without touching the first record, a get
      returns the first record's fields, and a deletion brings the count back. */
  method Scenario() {
    var store := new ProductStore();
    var r := store.CreateProduct("p1", "Caneta", "Azul", 3);
    assert r == Registered(CreatedStatus, Product("Caneta", "Azul", 3));
    r := store.CreateProduct("p1", "Lápis", "Preto", 1);
    assert r == Error(AlreadyExists);
    r := store.GetProduct("p1");
    assert r == Found("p1", "Caneta", "Azul", 3);
    r := store.CountProducts();
    assert r == Total(1);
    r := store.DeleteProduct("p1");
    assert r == Removed(DeletedStatus);
    r := store.DeleteProduct("p1");
    assert r == Error(NotFound);
    r := store.CountProducts();
    assert r == Total(0);
  }
}
