/** The hand-written part of the product mapper: the projection of a product's
    orders onto their ids, which fills a product DTO's `orderIds`. */
module ProductMapper {
  import opened Wrappers
  import opened Entities
  import Repository

  /** The product DTO the mapper produces; `id` and `description` are copied. */
  datatype ProductDTO = ProductDTO(id: Option<int>, description: Option<string>, orderIds: seq<Option<int>>)

  /** `mapOrdersToIds`: a null list gives the empty list; otherwise the ids of the
      orders, one per order, in the same order (an unsaved order gives a null id). */
  function MapOrdersToIds(orders: Option<seq<Order>>): (ids: seq<Option<int>>)
    ensures orders.None? ==> ids == []
    ensures orders.Some? ==> |ids| == |orders.value|
    ensures orders.Some? ==> forall i :: 0 <= i < |ids| ==> ids[i] == orders.value[i].id
  {
    match orders
    case None => []
    case Some(os) => seq(|os|, i requires 0 <= i < |os| => os[i].id)
  }

  /** `productToProductDTO` with `orderIds` taken from `orders`. */
  function ProductToProductDto(p: Product): (d: ProductDTO)
    ensures d.id == p.id && d.description == p.description
    ensures d.orderIds == MapOrdersToIds(p.orders)
  {
    ProductDTO(p.id, p.description, MapOrdersToIds(p.orders))
  }

  /** The projection is a stream `map`: it distributes over concatenation, so the
      ids of a list are the ids of its parts, in order. */
  lemma MapOrdersToIdsAppend(a: seq<Order>, b: seq<Order>)
    ensures MapOrdersToIds(Some(a + b)) == MapOrdersToIds(Some(a)) + MapOrdersToIds(Some(b))
  {
    var l, r := MapOrdersToIds(Some(a)), MapOrdersToIds(Some(b));
    assert forall i :: 0 <= i < |a + b| ==> MapOrdersToIds(Some(a + b))[i] == (l + r)[i];
  }

  /** When every order is saved, the ids are exactly the orders' ids, none null:
      an id is in the result if and only if some order carries it. */
  lemma MapOrdersToIdsOfSavedOrders(orders: seq<Order>, n: int)
    requires forall i :: 0 <= i < |orders| ==> orders[i].id.Some?
    ensures None !in MapOrdersToIds(Some(orders))
    ensures Some(n) in MapOrdersToIds(Some(orders)) <==> exists i :: 0 <= i < |orders| && orders[i].id == Some(n)
  {
    var ids := MapOrdersToIds(Some(orders));
    if Some(n) in ids {
      var i :| 0 <= i < |ids| && ids[i] == Some(n);
      assert orders[i].id == Some(n);
    }
    if exists i :: 0 <= i < |orders| && orders[i].id == Some(n) {
      var i :| 0 <= i < |orders| && orders[i].id == Some(n);
      assert ids[i] == Some(n);
    }
  }

  /** A product whose order list is null or empty maps to a DTO without order ids. */
  lemma NoOrdersNoIds(p: Product)
    requires p.orders.None? || p.orders == Some([])
    ensures ProductToProductDto(p).orderIds == []
  {
  }

  /** The mapper agrees with the repository view the services cache: for a
      product loaded from the database, whose order list holds exactly the saved
      orders that link it, the mapped ids are, without a null, exactly the
      `orderIds` of the product's DTO in the model of the repositories. */
  lemma MapperAgreesWithRepository(db: Repository.Db, p: int, product: Product)
    requires p in db.products && product.id == Some(p) && product.description == Some(db.products[p].description)
    requires product.orders.Some?
    requires forall i :: 0 <= i < |product.orders.value| ==> product.orders.value[i].id.Some?
    requires forall o :: o in db.orders && p in db.orders[o].productIds <==>
                           exists i :: 0 <= i < |product.orders.value| && product.orders.value[i].id == Some(o)
    ensures var d, dto := ProductToProductDto(product), Repository.ProductDtoOf(db, p);
            && d.id == Some(dto.id) && d.description == Some(dto.description)
            && None !in d.orderIds
            && forall o :: Some(o) in d.orderIds <==> o in dto.orderIds
  {
    var os := product.orders.value;
    MapOrdersToIdsOfSavedOrders(os, 0);
    forall o
      ensures Some(o) in ProductToProductDto(product).orderIds <==> o in Repository.ProductDtoOf(db, p).orderIds
    {
      MapOrdersToIdsOfSavedOrders(os, o);
    }
  }
}
