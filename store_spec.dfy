/** The three services and the cache service as transitions of one state: the
    database, the cache, and the log of repository calls made so far. Each
    service method's cache behaviour is that of its annotations: a cacheable
    read returns a cached entry without touching a repository and otherwise loads
    and stores; puts and evictions happen only when the method returns normally. */
module StoreSpec {
  import opened Wrappers
  import opened Dto
  import opened Repository
  import opened Exceptions
  import opened CacheConfig
  import Caches
  import Text

  datatype State = State(db: Db, cache: Caches.Cache, log: seq<RepoCall>)

  /** The state after a call and what the call returned (or threw). */
  datatype Step<T> = Step(next: State, out: T)

  /** A freshly started application over an empty database. */
  function Initial(createOnMissing: bool): State {
    State(EmptyDb, Caches.EmptyCache(createOnMissing), [])
  }

  function Called(s: State, calls: seq<RepoCall>): seq<RepoCall> {
    s.log + calls
  }

  // ================================================================ reads

  /** `getCustomerById`, cached under `customers/#id`. An empty result is
      returned and not stored, as `unless = "#result == null"` would make it;
      `StoringNull` gives the behaviour without that condition. */
  function GetCustomerById(s: State, id: int): (r: Step<Option<CustomerDto>>)
    ensures r.next.db == s.db
    ensures id in s.cache.customers ==> r.next == s && r.out == Some(s.cache.customers[id])
    ensures id !in s.cache.customers ==> r.out == FindCustomer(s.db, id) && r.next.log == s.log + [FindById(CustomerTable, id)]
    ensures r.out.Some? ==> id in r.next.cache.customers && r.next.cache.customers[id] == r.out.value
    ensures r.out.None? ==> r.next.cache == s.cache
    ensures forall ns :: ns != Customers ==> Caches.Same(r.next.cache, s.cache, ns)
    ensures Caches.SameManager(r.next.cache, s.cache)
  {
    if id in s.cache.customers then Step(s, Some(s.cache.customers[id]))
    else
      var loaded := FindCustomer(s.db, id);
      var log := Called(s, [FindById(CustomerTable, id)]);
      match loaded
      case None => Step(s.(log := log), loaded)
      case Some(d) => Step(s.(cache := s.cache.(customers := s.cache.customers[id := d]), log := log), loaded)
  }

  /** A cacheable by-id read as the configuration makes it behave: the
      annotations have no `unless = "#result == null"`, so a miss whose load is
      empty asks the cache to store null, which a cache with null values
      disabled refuses with an error; the caller gets that error instead of the
      empty result. The state is that of the read: the load was made and
      nothing was stored. */
  function StoringNull<T>(read: Step<Option<T>>, ns: Namespace): (r: Step<Result<Option<T>, NullValueRejected>>)
    ensures r.next == read.next
    ensures r.out.Success? <==> read.out.Some?
    ensures r.out.Success? ==> r.out.value == read.out
    ensures r.out.Failure? ==> r.out.error == NullValueRejected(Name(ns))
  {
    match read.out
    case Some(_) => Step(read.next, Success(read.out))
    case None => Step(read.next, Failure(NullValueRejected(Name(ns))))
  }

  /** `getOrderById`, cached under `orders/#id`. */
  function GetOrderById(s: State, id: int): (r: Step<Option<OrderDto>>)
    ensures r.next.db == s.db
    ensures id in s.cache.orders ==> r.next == s && r.out == Some(s.cache.orders[id])
    ensures id !in s.cache.orders ==> r.out == FindOrder(s.db, id) && r.next.log == s.log + [FindById(OrderTable, id)]
    ensures r.out.Some? ==> id in r.next.cache.orders && r.next.cache.orders[id] == r.out.value
    ensures r.out.None? ==> r.next.cache == s.cache
    ensures forall ns :: ns != Orders ==> Caches.Same(r.next.cache, s.cache, ns)
    ensures Caches.SameManager(r.next.cache, s.cache)
  {
    if id in s.cache.orders then Step(s, Some(s.cache.orders[id]))
    else
      var loaded := FindOrder(s.db, id);
      var log := Called(s, [FindById(OrderTable, id)]);
      match loaded
      case None => Step(s.(log := log), loaded)
      case Some(d) => Step(s.(cache := s.cache.(orders := s.cache.orders[id := d]), log := log), loaded)
  }

  /** `getProductById`, cached under `products/#id`. */
  function GetProductById(s: State, id: int): (r: Step<Option<ProductDto>>)
    ensures r.next.db == s.db
    ensures id in s.cache.products ==> r.next == s && r.out == Some(s.cache.products[id])
    ensures id !in s.cache.products ==> r.out == FindProduct(s.db, id) && r.next.log == s.log + [FindById(ProductTable, id)]
    ensures r.out.Some? ==> id in r.next.cache.products && r.next.cache.products[id] == r.out.value
    ensures r.out.None? ==> r.next.cache == s.cache
    ensures forall ns :: ns != Products ==> Caches.Same(r.next.cache, s.cache, ns)
    ensures Caches.SameManager(r.next.cache, s.cache)
  {
    if id in s.cache.products then Step(s, Some(s.cache.products[id]))
    else
      var loaded := FindProduct(s.db, id);
      var log := Called(s, [FindById(ProductTable, id)]);
      match loaded
      case None => Step(s.(log := log), loaded)
      case Some(d) => Step(s.(cache := s.cache.(products := s.cache.products[id := d]), log := log), loaded)
  }

  /** `getOrdersByCustomerId`, cached under `orders-by-customer/#customerId`; an
      empty list is a value, so it is stored too. */
  function GetOrdersByCustomerId(s: State, customerId: int): (r: Step<set<OrderDto>>)
    ensures r.next.db == s.db
    ensures customerId in s.cache.ordersByCustomer ==> r.next == s && r.out == s.cache.ordersByCustomer[customerId]
    ensures customerId !in s.cache.ordersByCustomer ==>
              r.out == FindOrdersByCustomerId(s.db, customerId) && r.next.log == s.log + [FindByCustomerId(customerId)]
    ensures customerId in r.next.cache.ordersByCustomer && r.next.cache.ordersByCustomer[customerId] == r.out
    ensures forall ns :: ns != OrdersByCustomer ==> Caches.Same(r.next.cache, s.cache, ns)
    ensures Caches.SameManager(r.next.cache, s.cache)
  {
    if customerId in s.cache.ordersByCustomer then Step(s, s.cache.ordersByCustomer[customerId])
    else
      var loaded := FindOrdersByCustomerId(s.db, customerId);
      Step(s.(cache := s.cache.(ordersByCustomer := s.cache.ordersByCustomer[customerId := loaded]),
              log := Called(s, [FindByCustomerId(customerId)])), loaded)
  }

  /** `findCustomersByNameContaining`, cached under `nameQuery.toLowerCase()`. */
  function FindCustomersByNameContaining(s: State, nameQuery: string): (r: Step<set<CustomerDto>>)
    ensures r.next.db == s.db
    ensures var key := Text.Lower(nameQuery);
            && (key in s.cache.customerSearch ==> r.next == s && r.out == s.cache.customerSearch[key])
            && (key !in s.cache.customerSearch ==>
                  r.out == FindCustomersByName(s.db, nameQuery) && r.next.log == s.log + [FindByNameContaining(nameQuery)])
            && key in r.next.cache.customerSearch && r.next.cache.customerSearch[key] == r.out
    ensures forall ns :: ns != CustomerSearch ==> Caches.Same(r.next.cache, s.cache, ns)
    ensures Caches.SameManager(r.next.cache, s.cache)
  {
    var key := Text.Lower(nameQuery);
    if key in s.cache.customerSearch then Step(s, s.cache.customerSearch[key])
    else
      var loaded := FindCustomersByName(s.db, nameQuery);
      Step(s.(cache := s.cache.(customerSearch := s.cache.customerSearch[key := loaded]),
              log := Called(s, [FindByNameContaining(nameQuery)])), loaded)
  }

  /** `findProductsByDescriptionContaining`, cached under `description.toLowerCase()`. */
  function FindProductsByDescriptionContaining(s: State, description: string): (r: Step<set<ProductDto>>)
    ensures r.next.db == s.db
    ensures var key := Text.Lower(description);
            && (key in s.cache.productSearch ==> r.next == s && r.out == s.cache.productSearch[key])
            && (key !in s.cache.productSearch ==>
                  r.out == FindProductsByDescription(s.db, description) && r.next.log == s.log + [FindByDescriptionContaining(description)])
            && key in r.next.cache.productSearch && r.next.cache.productSearch[key] == r.out
    ensures forall ns :: ns != ProductSearch ==> Caches.Same(r.next.cache, s.cache, ns)
    ensures Caches.SameManager(r.next.cache, s.cache)
  {
    var key := Text.Lower(description);
    if key in s.cache.productSearch then Step(s, s.cache.productSearch[key])
    else
      var loaded := FindProductsByDescription(s.db, description);
      Step(s.(cache := s.cache.(productSearch := s.cache.productSearch[key := loaded]),
              log := Called(s, [FindByDescriptionContaining(description)])), loaded)
  }

  /** `getAllCustomers`: not cached, always a repository call. */
  function GetAllCustomers(s: State): (r: Step<set<CustomerDto>>)
    ensures r.next == s.(log := s.log + [FindAll(CustomerTable)])
    ensures forall d :: d in r.out <==> d.id in s.db.customers && d == CustomerDtoOf(s.db, d.id)
  {
    var all := FindAllCustomers(s.db);
    assert forall d: CustomerDto :: d.id in s.db.customers && d == CustomerDtoOf(s.db, d.id) ==> d in all;
    Step(s.(log := Called(s, [FindAll(CustomerTable)])), all)
  }

  /** `getAllProducts`: not cached, always a repository call. */
  function GetAllProducts(s: State): (r: Step<set<ProductDto>>)
    ensures r.next == s.(log := s.log + [FindAll(ProductTable)])
    ensures forall d :: d in r.out <==> d.id in s.db.products && d == ProductDtoOf(s.db, d.id)
  {
    var all := FindAllProducts(s.db);
    assert forall d: ProductDto :: d.id in s.db.products && d == ProductDtoOf(s.db, d.id) ==> d in all;
    Step(s.(log := Called(s, [FindAll(ProductTable)])), all)
  }

  // ================================================================ customers

  /** A customer saved under the next id has no orders yet: every order
      references a customer that already exists. */
  lemma NewCustomerHasNoOrders(db: Db, name: string)
    ensures var id := db.nextCustomerId;
            ValidDb(db) ==> CustomerDtoOf(db.(customers := db.customers[id := CustomerRow(name)]), id) == CustomerDto(id, name, {})
  {
    var id := db.nextCustomerId;
    if ValidDb(db) {
      forall o | o in db.orders
        ensures db.orders[o].customerId != id
      {
        assert db.orders[o].customerId in db.customers;
      }
    }
  }

  /** `createCustomer`: saves the name under the next id, puts the result under
      `customers/#result.id` and clears `customer-search`. */
  function CreateCustomer(s: State, req: CustomerRequest): (r: Step<CustomerDto>)
    ensures var id := r.out.id;
            && id == s.db.nextCustomerId
            && r.next.db.customers == s.db.customers[id := CustomerRow(req.name)]
            && r.next.db.orders == s.db.orders && r.next.db.products == s.db.products
            && r.out.name == req.name && r.out.orders == {}
            && r.next.cache.customers == s.cache.customers[id := r.out]
            && r.next.cache.customerSearch == map[]
    ensures ValidDb(s.db) ==> r.out.id !in s.db.customers && ValidDb(r.next.db) && FindCustomer(r.next.db, r.out.id) == Some(r.out)
    ensures forall ns :: ns !in {Customers, CustomerSearch} ==> Caches.Same(r.next.cache, s.cache, ns)
    ensures Caches.SameManager(r.next.cache, s.cache)
  {
    var id := s.db.nextCustomerId;
    var db := s.db.(customers := s.db.customers[id := CustomerRow(req.name)], nextCustomerId := id + 1);
    var result := CustomerDto(id, req.name, {});
    NewCustomerHasNoOrders(s.db, req.name);
    Step(State(db, s.cache.(customers := s.cache.customers[id := result], customerSearch := map[]),
               Called(s, [Save(CustomerTable, id)])), result)
  }

  /** `updateCustomer`: a missing customer throws before anything changes;
      otherwise the name is replaced, the result put under `customers/#id` and
      `customer-search` cleared. */
  function UpdateCustomer(s: State, id: int, req: CustomerRequest): (r: Step<Result<CustomerDto, ResourceNotFoundException>>)
    ensures r.out.Failure? <==> id !in s.db.customers
    ensures r.out.Failure? ==>
              && r.out.error == NotFoundById("Customer", id)
              && r.next == s.(log := s.log + [FindById(CustomerTable, id)])
    ensures r.out.Success? ==>
              && r.next.db == s.db.(customers := s.db.customers[id := CustomerRow(req.name)])
              && r.out.value.id == id && r.out.value.name == req.name
              && FindCustomer(r.next.db, id) == Some(r.out.value)
              && r.next.cache.customers == s.cache.customers[id := r.out.value]
              && r.next.cache.customerSearch == map[]
              && r.next.log == s.log + [FindById(CustomerTable, id), Save(CustomerTable, id)]
    ensures ValidDb(s.db) ==> ValidDb(r.next.db)
    ensures forall ns :: ns !in {Customers, CustomerSearch} ==> Caches.Same(r.next.cache, s.cache, ns)
    ensures Caches.SameManager(r.next.cache, s.cache)
  {
    if id !in s.db.customers then
      Step(s.(log := Called(s, [FindById(CustomerTable, id)])), Failure(NotFoundById("Customer", id)))
    else
      var db := s.db.(customers := s.db.customers[id := CustomerRow(req.name)]);
      var result := CustomerDtoOf(db, id);
      Step(State(db, s.cache.(customers := s.cache.customers[id := result], customerSearch := map[]),
                 Called(s, [FindById(CustomerTable, id), Save(CustomerTable, id)])), Success(result))
  }

  /** The ids of the orders that reference customer `customerId`. */
  function OrderIdsOf(db: Db, customerId: int): set<int> {
    set o | o in db.orders && db.orders[o].customerId == customerId
  }

  /** Removing a customer: its orders go with it (cascade with orphan removal). */
  function WithoutCustomer(db: Db, id: int): (r: Db)
    ensures r.customers == db.customers - {id}
    ensures forall o :: o in r.orders <==> o in db.orders && db.orders[o].customerId != id
    ensures forall o :: o in r.orders ==> r.orders[o] == db.orders[o]
    ensures r.products == db.products
  {
    db.(customers := db.customers - {id},
        orders := map o | o in db.orders && db.orders[o].customerId != id :: db.orders[o])
  }

  /** `deleteCustomer` as written: a missing customer throws; otherwise the
      customer and its orders are deleted and the three annotated evictions run:
      `customers/#id`, all of `customer-search`, `orders-by-customer/#id`. */
  function DeleteCustomer(s: State, id: int): (r: Step<Outcome<ResourceNotFoundException>>)
    ensures r.out.Fail? <==> id !in s.db.customers
    ensures r.out.Fail? ==>
              && r.out.error == NotFoundById("Customer", id)
              && r.next == s.(log := s.log + [ExistsById(CustomerTable, id)])
              && DeleteById(CustomerTable, id) !in r.next.log[|s.log|..]
    ensures r.out.Pass? ==>
              && r.next.db == WithoutCustomer(s.db, id)
              && r.next.cache.customers == s.cache.customers - {id}
              && r.next.cache.customerSearch == map[]
              && r.next.cache.ordersByCustomer == s.cache.ordersByCustomer - {id}
              && r.next.log == s.log + [ExistsById(CustomerTable, id), DeleteById(CustomerTable, id)]
    ensures ValidDb(s.db) ==> ValidDb(r.next.db)
    ensures forall ns :: ns !in {Customers, CustomerSearch, OrdersByCustomer} ==> Caches.Same(r.next.cache, s.cache, ns)
    ensures Caches.SameManager(r.next.cache, s.cache)
  {
    if id !in s.db.customers then
      Step(s.(log := Called(s, [ExistsById(CustomerTable, id)])), Fail(NotFoundById("Customer", id)))
    else
      Step(State(WithoutCustomer(s.db, id),
                 s.cache.(customers := s.cache.customers - {id}, customerSearch := map[],
                          ordersByCustomer := s.cache.ordersByCustomer - {id}),
                 Called(s, [ExistsById(CustomerTable, id), DeleteById(CustomerTable, id)])), Pass)
  }

  /** `deleteCustomer` with the evictions the cascade calls for: also
      `orders/<id>` for every order deleted with the customer. */
  function DeleteCustomerCorrected(s: State, id: int): (r: Step<Outcome<ResourceNotFoundException>>)
    ensures r.out == DeleteCustomer(s, id).out && r.next.db == DeleteCustomer(s, id).next.db
    ensures r.out.Pass? ==>
              && r.next.cache == DeleteCustomer(s, id).next.cache.(orders := s.cache.orders - OrderIdsOf(s.db, id))
              && forall o :: o in OrderIdsOf(s.db, id) ==> o !in r.next.cache.orders
    ensures r.out.Fail? ==> r.next == DeleteCustomer(s, id).next
  {
    var written := DeleteCustomer(s, id);
    if written.out.Fail? then written
    else Step(written.next.(cache := written.next.cache.(orders := s.cache.orders - OrderIdsOf(s.db, id))), Pass)
  }

  // ================================================================ orders

  /** `createOrder`: a missing customer throws after its lookup and nothing else
      happens; otherwise the order is saved with the request's description and
      customer, put under `orders/#result.id`, and
      `orders-by-customer/#request.customerId` is evicted. */
  function CreateOrder(s: State, req: OrderRequest): (r: Step<Result<OrderDto, ResourceNotFoundException>>)
    ensures r.out.Failure? <==> req.customerId !in s.db.customers
    ensures r.out.Failure? ==>
              && r.out.error == NotFoundById("Customer", req.customerId)
              && r.next == s.(log := s.log + [FindById(CustomerTable, req.customerId)])
    ensures r.out.Success? ==>
              var id := r.out.value.id;
              && id == s.db.nextOrderId
              && r.next.db.orders == s.db.orders[id := OrderRow(req.description, req.customerId, {})]
              && r.next.db.customers == s.db.customers && r.next.db.products == s.db.products
              && r.out.value.description == req.description && r.out.value.customer.id == req.customerId
              && FindOrder(r.next.db, id) == Some(r.out.value)
              && r.next.cache.orders == s.cache.orders[id := r.out.value]
              && r.next.cache.ordersByCustomer == s.cache.ordersByCustomer - {req.customerId}
              && r.next.log == s.log + [FindById(CustomerTable, req.customerId), Save(OrderTable, id)]
    ensures ValidDb(s.db) ==> ValidDb(r.next.db)
    ensures forall ns :: ns !in {Orders, OrdersByCustomer} ==> Caches.Same(r.next.cache, s.cache, ns)
    ensures Caches.SameManager(r.next.cache, s.cache)
  {
    var customerId := req.customerId;
    if customerId !in s.db.customers then
      Step(s.(log := Called(s, [FindById(CustomerTable, customerId)])), Failure(NotFoundById("Customer", customerId)))
    else
      var id := s.db.nextOrderId;
      var db := s.db.(orders := s.db.orders[id := OrderRow(req.description, customerId, {})], nextOrderId := id + 1);
      var result := OrderDto(id, req.description, OrderCustomerDto(customerId, s.db.customers[customerId].name), {});
      assert OrderProductsOf(s.db.products, {}) == {};
      Step(State(db, s.cache.(orders := s.cache.orders[id := result],
                              ordersByCustomer := s.cache.ordersByCustomer - {customerId}),
                 Called(s, [FindById(CustomerTable, customerId), Save(OrderTable, id)])), Success(result))
  }

  /** The keys the two `orders-by-customer` evictions on `updateOrder` remove:
      `#request.customerId`, and `#result.customer.id` under the condition that it
      differs from `#request.customerId`. */
  function UpdateOrderEvictions(req: OrderRequest, result: OrderDto): set<int> {
    {req.customerId} + (if req.customerId != result.customer.id then {result.customer.id} else {})
  }

  /** `updateOrder` as written: a missing order throws before the customer is
      looked up, a missing customer throws after; either way nothing changes.
      Otherwise description and customer are replaced (the id and the product
      links stay), the result is put under `orders/#id` and the annotated
      evictions run. */
  function UpdateOrder(s: State, id: int, req: OrderRequest): (r: Step<Result<OrderDto, ResourceNotFoundException>>)
    ensures r.out.Failure? <==> id !in s.db.orders || req.customerId !in s.db.customers
    ensures id !in s.db.orders ==>
              && r.out == Failure(NotFoundById("Order", id))
              && r.next == s.(log := s.log + [FindById(OrderTable, id)])
    ensures id in s.db.orders && req.customerId !in s.db.customers ==>
              && r.out == Failure(NotFoundById("Customer", req.customerId))
              && r.next == s.(log := s.log + [FindById(OrderTable, id), FindById(CustomerTable, req.customerId)])
    ensures r.out.Success? ==>
              && r.next.db.orders == s.db.orders[id := s.db.orders[id].(description := req.description, customerId := req.customerId)]
              && r.next.db.customers == s.db.customers && r.next.db.products == s.db.products
              && r.out.value.id == id && r.out.value.description == req.description
              && r.out.value.customer.id == req.customerId
              && FindOrder(r.next.db, id) == Some(r.out.value)
              && r.next.cache.orders == s.cache.orders[id := r.out.value]
              && r.next.cache.ordersByCustomer == s.cache.ordersByCustomer - UpdateOrderEvictions(req, r.out.value)
              && r.next.log == s.log + [FindById(OrderTable, id), FindById(CustomerTable, req.customerId), Save(OrderTable, id)]
    ensures ValidDb(s.db) ==> ValidDb(r.next.db)
    ensures forall ns :: ns !in {Orders, OrdersByCustomer} ==> Caches.Same(r.next.cache, s.cache, ns)
    ensures Caches.SameManager(r.next.cache, s.cache)
  {
    UpdateOrderEvicting(s, id, req, false)
  }

  /** `updateOrder` with the eviction its comment describes: the old customer's
      `orders-by-customer` entry is evicted too. */
  function UpdateOrderCorrected(s: State, id: int, req: OrderRequest): (r: Step<Result<OrderDto, ResourceNotFoundException>>)
    ensures r.out == UpdateOrder(s, id, req).out && r.next.db == UpdateOrder(s, id, req).next.db
    ensures r.out.Success? ==>
              r.next.cache.ordersByCustomer == s.cache.ordersByCustomer - {req.customerId, s.db.orders[id].customerId}
    ensures forall ns :: ns != OrdersByCustomer ==> Caches.Same(r.next.cache, UpdateOrder(s, id, req).next.cache, ns)
  {
    UpdateOrderEvicting(s, id, req, true)
  }

  /** The body shared by the two versions of `updateOrder`: they differ only in
      whether the old customer's list is evicted. */
  function UpdateOrderEvicting(s: State, id: int, req: OrderRequest, evictOldCustomer: bool): Step<Result<OrderDto, ResourceNotFoundException>> {
    if id !in s.db.orders then
      Step(s.(log := Called(s, [FindById(OrderTable, id)])), Failure(NotFoundById("Order", id)))
    else
      var oldCustomerId := s.db.orders[id].customerId;
      if req.customerId !in s.db.customers then
        Step(s.(log := Called(s, [FindById(OrderTable, id), FindById(CustomerTable, req.customerId)])),
             Failure(NotFoundById("Customer", req.customerId)))
      else
        var row := s.db.orders[id].(description := req.description, customerId := req.customerId);
        var db := s.db.(orders := s.db.orders[id := row]);
        var result := OrderDto(id, req.description, OrderCustomerDto(req.customerId, s.db.customers[req.customerId].name),
                               OrderProductsOf(s.db.products, row.productIds));
        var evicted := UpdateOrderEvictions(req, result) + (if evictOldCustomer then {oldCustomerId} else {});
        Step(State(db, s.cache.(orders := s.cache.orders[id := result],
                                ordersByCustomer := s.cache.ordersByCustomer - evicted),
                   Called(s, [FindById(OrderTable, id), FindById(CustomerTable, req.customerId), Save(OrderTable, id)])),
             Success(result))
  }

  /** `deleteOrder`: a missing order throws, with no delete and no eviction;
      otherwise the order is deleted, `orders-by-customer` of its customer is
      evicted through the cache service and `orders/#id` by the annotation. */
  function DeleteOrder(s: State, id: int): (r: Step<Outcome<ResourceNotFoundException>>)
    ensures r.out.Fail? <==> id !in s.db.orders
    ensures r.out.Fail? ==>
              && r.out.error == NotFoundById("Order", id)
              && r.next == s.(log := s.log + [FindById(OrderTable, id)])
    ensures r.out.Pass? ==>
              && r.next.db == s.db.(orders := s.db.orders - {id})
              && r.next.cache.orders == s.cache.orders - {id}
              && r.next.cache.ordersByCustomer == s.cache.ordersByCustomer - {s.db.orders[id].customerId}
              && r.next.log == s.log + [FindById(OrderTable, id), DeleteById(OrderTable, id)]
    ensures ValidDb(s.db) ==> ValidDb(r.next.db)
    ensures forall ns :: ns !in {Orders, OrdersByCustomer} ==> Caches.Same(r.next.cache, s.cache, ns)
    ensures Caches.SameManager(r.next.cache, s.cache)
  {
    if id !in s.db.orders then
      Step(s.(log := Called(s, [FindById(OrderTable, id)])), Fail(NotFoundById("Order", id)))
    else
      var customerId := s.db.orders[id].customerId;
      var db := s.db.(orders := s.db.orders - {id});
      var afterService := Caches.EvictCustomerOrders(s.cache, customerId);
      Step(State(db, Caches.EvictOrder(afterService, id),
                 Called(s, [FindById(OrderTable, id), DeleteById(OrderTable, id)])), Pass)
  }

  // ================================================================ products

  /** A product saved under the next id is in no order yet: every join row
      references a product that already exists. */
  lemma NewProductHasNoOrders(db: Db, description: string)
    ensures var id := db.nextProductId;
            ValidDb(db) ==> ProductDtoOf(db.(products := db.products[id := ProductRow(description)]), id) == ProductDto(id, description, {})
  {
    var id := db.nextProductId;
    if ValidDb(db) {
      forall o | o in db.orders
        ensures id !in db.orders[o].productIds
      {
        assert db.orders[o].productIds <= db.products.Keys;
      }
    }
  }

  /** `createProduct`: saves the description under the next id, puts the result
      under `products/#result.id` and clears `product-search`. */
  function CreateProduct(s: State, req: ProductRequest): (r: Step<ProductDto>)
    ensures var id := r.out.id;
            && id == s.db.nextProductId
            && r.next.db.products == s.db.products[id := ProductRow(req.description)]
            && r.next.db.customers == s.db.customers && r.next.db.orders == s.db.orders
            && r.out.description == req.description && r.out.orderIds == {}
            && r.next.cache.products == s.cache.products[id := r.out]
            && r.next.cache.productSearch == map[]
    ensures ValidDb(s.db) ==> r.out.id !in s.db.products && ValidDb(r.next.db) && FindProduct(r.next.db, r.out.id) == Some(r.out)
    ensures forall ns :: ns !in {Products, ProductSearch} ==> Caches.Same(r.next.cache, s.cache, ns)
    ensures Caches.SameManager(r.next.cache, s.cache)
  {
    var id := s.db.nextProductId;
    var db := s.db.(products := s.db.products[id := ProductRow(req.description)], nextProductId := id + 1);
    var result := ProductDto(id, req.description, {});
    NewProductHasNoOrders(s.db, req.description);
    Step(State(db, s.cache.(products := s.cache.products[id := result], productSearch := map[]),
               Called(s, [Save(ProductTable, id)])), result)
  }

  /** `updateProduct`: a missing product throws before anything changes;
      otherwise the description is replaced, the result put under `products/#id`
      and `product-search` cleared. */
  function UpdateProduct(s: State, id: int, req: ProductRequest): (r: Step<Result<ProductDto, ResourceNotFoundException>>)
    ensures r.out.Failure? <==> id !in s.db.products
    ensures r.out.Failure? ==>
              && r.out.error == NotFoundById("Product", id)
              && r.next == s.(log := s.log + [FindById(ProductTable, id)])
    ensures r.out.Success? ==>
              && r.next.db == s.db.(products := s.db.products[id := ProductRow(req.description)])
              && r.out.value.id == id && r.out.value.description == req.description
              && FindProduct(r.next.db, id) == Some(r.out.value)
              && r.next.cache.products == s.cache.products[id := r.out.value]
              && r.next.cache.productSearch == map[]
              && r.next.log == s.log + [FindById(ProductTable, id), Save(ProductTable, id)]
    ensures ValidDb(s.db) ==> ValidDb(r.next.db)
    ensures forall ns :: ns !in {Products, ProductSearch} ==> Caches.Same(r.next.cache, s.cache, ns)
    ensures Caches.SameManager(r.next.cache, s.cache)
  {
    if id !in s.db.products then
      Step(s.(log := Called(s, [FindById(ProductTable, id)])), Failure(NotFoundById("Product", id)))
    else
      var db := s.db.(products := s.db.products[id := ProductRow(req.description)]);
      var result := ProductDtoOf(db, id);
      Step(State(db, s.cache.(products := s.cache.products[id := result], productSearch := map[]),
                 Called(s, [FindById(ProductTable, id), Save(ProductTable, id)])), Success(result))
  }

  /** Removing a product together with its join rows. */
  function WithoutProduct(db: Db, id: int): (r: Db)
    ensures r.products == db.products - {id} && r.customers == db.customers
    ensures r.orders.Keys == db.orders.Keys
    ensures forall o :: o in r.orders ==> r.orders[o] == db.orders[o].(productIds := db.orders[o].productIds - {id})
  {
    db.(products := db.products - {id},
        orders := map o | o in db.orders :: db.orders[o].(productIds := db.orders[o].productIds - {id}))
  }

  /** `deleteProduct`: a missing product throws, with no delete and no eviction;
      otherwise the product is deleted, `products/#id` evicted and
      `product-search` cleared. */
  function DeleteProduct(s: State, id: int): (r: Step<Outcome<ResourceNotFoundException>>)
    ensures r.out.Fail? <==> id !in s.db.products
    ensures r.out.Fail? ==>
              && r.out.error == NotFoundById("Product", id)
              && r.next == s.(log := s.log + [ExistsById(ProductTable, id)])
    ensures r.out.Pass? ==>
              && r.next.db == WithoutProduct(s.db, id)
              && r.next.cache.products == s.cache.products - {id}
              && r.next.cache.productSearch == map[]
              && r.next.log == s.log + [ExistsById(ProductTable, id), DeleteById(ProductTable, id)]
    ensures ValidDb(s.db) ==> ValidDb(r.next.db)
    ensures forall ns :: ns !in {Products, ProductSearch} ==> Caches.Same(r.next.cache, s.cache, ns)
    ensures Caches.SameManager(r.next.cache, s.cache)
  {
    if id !in s.db.products then
      Step(s.(log := Called(s, [ExistsById(ProductTable, id)])), Fail(NotFoundById("Product", id)))
    else
      Step(State(WithoutProduct(s.db, id),
                 s.cache.(products := s.cache.products - {id}, productSearch := map[]),
                 Called(s, [ExistsById(ProductTable, id), DeleteById(ProductTable, id)])), Pass)
  }

  // ================================================================ the cache service

  /** `evictCustomer`: a null id changes nothing; otherwise only `customers/#id` goes. */
  function EvictCustomer(s: State, customerId: Option<int>): (r: State)
    ensures r.db == s.db && r.log == s.log && Caches.SameManager(r.cache, s.cache)
    ensures customerId.None? ==> r == s
    ensures customerId.Some? ==> r.cache.customers == s.cache.customers - {customerId.value}
    ensures forall ns :: ns != Customers ==> Caches.Same(r.cache, s.cache, ns)
  {
    match customerId
    case None => s
    case Some(id) => s.(cache := Caches.EvictCustomer(s.cache, id))
  }

  /** `evictCustomerOrders`: a null id changes nothing; otherwise only
      `orders-by-customer/#customerId` goes. */
  function EvictCustomerOrders(s: State, customerId: Option<int>): (r: State)
    ensures r.db == s.db && r.log == s.log && Caches.SameManager(r.cache, s.cache)
    ensures customerId.None? ==> r == s
    ensures customerId.Some? ==> r.cache.ordersByCustomer == s.cache.ordersByCustomer - {customerId.value}
    ensures forall ns :: ns != OrdersByCustomer ==> Caches.Same(r.cache, s.cache, ns)
  {
    match customerId
    case None => s
    case Some(id) => s.(cache := Caches.EvictCustomerOrders(s.cache, id))
  }

  /** `evictOrder`: a null id changes nothing; otherwise only `orders/#orderId` goes. */
  function EvictOrder(s: State, orderId: Option<int>): (r: State)
    ensures r.db == s.db && r.log == s.log && Caches.SameManager(r.cache, s.cache)
    ensures orderId.None? ==> r == s
    ensures orderId.Some? ==> r.cache.orders == s.cache.orders - {orderId.value}
    ensures forall ns :: ns != Orders ==> Caches.Same(r.cache, s.cache, ns)
  {
    match orderId
    case None => s
    case Some(id) => s.(cache := Caches.EvictOrder(s.cache, id))
  }

  /** `evictAllCustomerSearches`: `customer-search` emptied, nothing else touched. */
  function EvictAllCustomerSearches(s: State): (r: State)
    ensures r.db == s.db && r.log == s.log && Caches.SameManager(r.cache, s.cache)
    ensures r.cache.customerSearch == map[]
    ensures forall ns :: ns != CustomerSearch ==> Caches.Same(r.cache, s.cache, ns)
  {
    s.(cache := Caches.Clear(s.cache, CustomerSearch))
  }

  /** `evictAllCaches`: every cache the manager knows is cleared in turn. */
  function EvictAllCaches(s: State): (r: State)
    ensures r.db == s.db && r.log == s.log && Caches.SameManager(r.cache, s.cache)
    ensures forall ns :: Caches.IsEmpty(r.cache, ns)
  {
    s.(cache := Caches.ClearAll(s.cache))
  }

  /** `warmupCache` only logs. */
  function WarmupCache(s: State): (r: State)
    ensures r == s
  {
    s
  }

  /** `getCacheStats`: whether the cache manager returns a cache for the name. */
  function GetCacheStats(s: State, cacheName: string): (r: Step<string>)
    ensures r.next.db == s.db && r.next.log == s.log
    ensures forall ns :: Caches.Same(r.next.cache, s.cache, ns)
    ensures Caches.Known(s.cache, cacheName) || s.cache.createOnMissing ==> r.out == "Cache " + cacheName + " is active"
    ensures !Caches.Known(s.cache, cacheName) && !s.cache.createOnMissing ==> r.out == "Cache " + cacheName + " not found" && r.next == s
  {
    var lookup := Caches.GetCache(s.cache, cacheName);
    var message := if lookup.1 then "Cache " + cacheName + " is active" else "Cache " + cacheName + " not found";
    Step(s.(cache := lookup.0), message)
  }
}
