/** The running application: the repositories' tables, the cache manager's six
    namespaces and the log of repository calls, updated in place by the three
    service implementations and the cache service. Every method is proved to
    make exactly the transition its function in `StoreSpec` describes, and the
    methods that keep the cache coherent say so. */
module Services {
  import opened Wrappers
  import opened Dto
  import opened Repository
  import opened Exceptions
  import opened CacheConfig
  import Caches
  import StoreSpec
  import Coherence
  import Text

  class Store {
    // the repositories
    var customers: map<int, CustomerRow>
    var orders: map<int, OrderRow>
    var products: map<int, ProductRow>
    var nextCustomerId: int
    var nextOrderId: int
    var nextProductId: int

    /** The cache manager and the six namespaces it holds. */
    var cache: Caches.Cache

    /** Every repository call made so far. */
    var log: seq<RepoCall>

    function Db(): Db
      reads this
    {
      Repository.Db(customers, orders, products, nextCustomerId, nextOrderId, nextProductId)
    }

    /** The state this object represents. */
    function State(): StoreSpec.State
      reads this
    {
      StoreSpec.State(Db(), cache, log)
    }

    predicate Coherent()
      reads this
    {
      Coherence.Coherent(State())
    }

    /** An application started over an empty database, with nothing cached. */
    constructor (createOnMissing: bool)
      ensures State() == StoreSpec.Initial(createOnMissing)
      ensures Coherent()
    {
      customers, orders, products := map[], map[], map[];
      nextCustomerId, nextOrderId, nextProductId := 1, 1, 1;
      cache := Caches.EmptyCache(createOnMissing);
      log := [];
      new;
      Coherence.InitialIsCoherent(createOnMissing);
    }

    // ============================================================== reads

    method GetCustomerById(id: int) returns (r: Option<CustomerDto>)
      modifies this
      ensures var step := StoreSpec.GetCustomerById(old(State()), id); State() == step.next && r == step.out
      ensures old(Coherent()) ==> Coherent() && r == FindCustomer(Db(), id)
    {
      ghost var s := State();
      if id in cache.customers {
        r := Some(cache.customers[id]);
      } else {
        log := log + [FindById(CustomerTable, id)];
        r := FindCustomer(Db(), id);
        if r.Some? {
          cache := cache.(customers := cache.customers[id := r.value]);
        }
      }
      if Coherence.Coherent(s) {
        Coherence.GetCustomerByIdSound(s, id);
      }
    }

    method GetOrderById(id: int) returns (r: Option<OrderDto>)
      modifies this
      ensures var step := StoreSpec.GetOrderById(old(State()), id); State() == step.next && r == step.out
      ensures old(Coherent()) ==> Coherent() && r == FindOrder(Db(), id)
    {
      ghost var s := State();
      if id in cache.orders {
        r := Some(cache.orders[id]);
      } else {
        log := log + [FindById(OrderTable, id)];
        r := FindOrder(Db(), id);
        if r.Some? {
          cache := cache.(orders := cache.orders[id := r.value]);
        }
      }
      if Coherence.Coherent(s) {
        Coherence.GetOrderByIdSound(s, id);
      }
    }

    method GetProductById(id: int) returns (r: Option<ProductDto>)
      modifies this
      ensures var step := StoreSpec.GetProductById(old(State()), id); State() == step.next && r == step.out
      ensures old(Coherent()) ==> Coherent() && r == FindProduct(Db(), id)
    {
      ghost var s := State();
      if id in cache.products {
        r := Some(cache.products[id]);
      } else {
        log := log + [FindById(ProductTable, id)];
        r := FindProduct(Db(), id);
        if r.Some? {
          cache := cache.(products := cache.products[id := r.value]);
        }
      }
      if Coherence.Coherent(s) {
        Coherence.GetProductByIdSound(s, id);
      }
    }

    method GetOrdersByCustomerId(customerId: int) returns (r: set<OrderDto>)
      modifies this
      ensures var step := StoreSpec.GetOrdersByCustomerId(old(State()), customerId); State() == step.next && r == step.out
      ensures old(Coherent()) ==> Coherent() && r == FindOrdersByCustomerId(Db(), customerId)
    {
      ghost var s := State();
      if customerId in cache.ordersByCustomer {
        r := cache.ordersByCustomer[customerId];
      } else {
        log := log + [FindByCustomerId(customerId)];
        r := FindOrdersByCustomerId(Db(), customerId);
        cache := cache.(ordersByCustomer := cache.ordersByCustomer[customerId := r]);
      }
      if Coherence.Coherent(s) {
        Coherence.GetOrdersByCustomerIdSound(s, customerId);
      }
    }

    method FindCustomersByNameContaining(nameQuery: string) returns (r: set<CustomerDto>)
      modifies this
      ensures var step := StoreSpec.FindCustomersByNameContaining(old(State()), nameQuery); State() == step.next && r == step.out
      ensures old(Coherent()) ==> Coherent() && r == FindCustomersByName(Db(), nameQuery)
    {
      ghost var s := State();
      var key := Text.Lower(nameQuery);
      if key in cache.customerSearch {
        r := cache.customerSearch[key];
      } else {
        log := log + [FindByNameContaining(nameQuery)];
        r := FindCustomersByName(Db(), nameQuery);
        cache := cache.(customerSearch := cache.customerSearch[key := r]);
      }
      if Coherence.Coherent(s) {
        Coherence.FindCustomersByNameContainingSound(s, nameQuery);
      }
    }

    method FindProductsByDescriptionContaining(description: string) returns (r: set<ProductDto>)
      modifies this
      ensures var step := StoreSpec.FindProductsByDescriptionContaining(old(State()), description); State() == step.next && r == step.out
      ensures old(Coherent()) ==> Coherent() && r == FindProductsByDescription(Db(), description)
    {
      ghost var s := State();
      var key := Text.Lower(description);
      if key in cache.productSearch {
        r := cache.productSearch[key];
      } else {
        log := log + [FindByDescriptionContaining(description)];
        r := FindProductsByDescription(Db(), description);
        cache := cache.(productSearch := cache.productSearch[key := r]);
      }
      if Coherence.Coherent(s) {
        Coherence.FindProductsByDescriptionContainingSound(s, description);
      }
    }

    method GetAllCustomers() returns (r: set<CustomerDto>)
      modifies this
      ensures var step := StoreSpec.GetAllCustomers(old(State())); State() == step.next && r == step.out
      ensures old(Coherent()) ==> Coherent()
    {
      ghost var s := State();
      log := log + [FindAll(CustomerTable)];
      r := FindAllCustomers(Db());
      if Coherence.Coherent(s) {
        Coherence.LogOnlyKeepsCoherent(s, State());
      }
    }

    method GetAllProducts() returns (r: set<ProductDto>)
      modifies this
      ensures var step := StoreSpec.GetAllProducts(old(State())); State() == step.next && r == step.out
      ensures old(Coherent()) ==> Coherent()
    {
      ghost var s := State();
      log := log + [FindAll(ProductTable)];
      r := FindAllProducts(Db());
      if Coherence.Coherent(s) {
        Coherence.LogOnlyKeepsCoherent(s, State());
      }
    }

    // ============================================================== customers

    method CreateCustomer(req: CustomerRequest) returns (r: CustomerDto)
      modifies this
      ensures var step := StoreSpec.CreateCustomer(old(State()), req); State() == step.next && r == step.out
      ensures old(Coherent()) ==> Coherent()
    {
      ghost var s := State();
      var id := nextCustomerId;
      customers := customers[id := CustomerRow(req.name)];
      nextCustomerId := id + 1;
      log := log + [Save(CustomerTable, id)];
      r := CustomerDto(id, req.name, {});
      cache := cache.(customers := cache.customers[id := r]);
      cache := Caches.Clear(cache, CustomerSearch);
      if Coherence.Coherent(s) {
        Coherence.CreateCustomerKeepsCoherent(s, req);
      }
    }

    method UpdateCustomer(id: int, req: CustomerRequest) returns (r: Result<CustomerDto, ResourceNotFoundException>)
      modifies this
      ensures var step := StoreSpec.UpdateCustomer(old(State()), id, req); State() == step.next && r == step.out
    {
      log := log + [FindById(CustomerTable, id)];
      if id !in customers {
        return Failure(NotFoundById("Customer", id));
      }
      var customer := customers[id];
      customer := customer.(name := req.name);
      customers := customers[id := customer];
      log := log + [Save(CustomerTable, id)];
      var result := CustomerDtoOf(Db(), id);
      cache := cache.(customers := cache.customers[id := result]);
      cache := Caches.Clear(cache, CustomerSearch);
      r := Success(result);
    }

    method DeleteCustomer(id: int) returns (r: Outcome<ResourceNotFoundException>)
      modifies this
      ensures var step := StoreSpec.DeleteCustomer(old(State()), id); State() == step.next && r == step.out
    {
      log := log + [ExistsById(CustomerTable, id)];
      if id !in customers {
        return Fail(NotFoundById("Customer", id));
      }
      ghost var s := old(State());
      log := log + [DeleteById(CustomerTable, id)];
      var db := StoreSpec.WithoutCustomer(Db(), id);
      customers, orders := db.customers, db.orders;
      cache := Caches.EvictCustomer(cache, id);
      cache := Caches.Clear(cache, CustomerSearch);
      cache := Caches.EvictCustomerOrders(cache, id);
      r := Pass;
      assert Db() == StoreSpec.WithoutCustomer(s.db, id);
      assert State() == StoreSpec.State(StoreSpec.WithoutCustomer(s.db, id),
                                        s.cache.(customers := s.cache.customers - {id}, customerSearch := map[],
                                                 ordersByCustomer := s.cache.ordersByCustomer - {id}),
                                        s.log + [ExistsById(CustomerTable, id), DeleteById(CustomerTable, id)]);
    }

    // ============================================================== orders

    method CreateOrder(req: OrderRequest) returns (r: Result<OrderDto, ResourceNotFoundException>)
      modifies this
      ensures var step := StoreSpec.CreateOrder(old(State()), req); State() == step.next && r == step.out
    {
      ghost var s := State();
      var customerId := req.customerId;
      log := log + [FindById(CustomerTable, customerId)];
      if customerId !in customers {
        return Failure(NotFoundById("Customer", customerId));
      }
      var customer := customers[customerId];
      var id := nextOrderId;
      orders := orders[id := OrderRow(req.description, customerId, {})];
      nextOrderId := id + 1;
      log := log + [Save(OrderTable, id)];
      var result := OrderDto(id, req.description, OrderCustomerDto(customerId, customer.name), {});
      cache := cache.(orders := cache.orders[id := result]);
      cache := Caches.EvictCustomerOrders(cache, customerId);
      r := Success(result);
      assert State() == StoreSpec.State(s.db.(orders := s.db.orders[id := OrderRow(req.description, customerId, {})], nextOrderId := id + 1),
                                        s.cache.(orders := s.cache.orders[id := result], ordersByCustomer := s.cache.ordersByCustomer - {customerId}),
                                        StoreSpec.Called(s, [FindById(CustomerTable, customerId), Save(OrderTable, id)]));
    }

    method UpdateOrder(id: int, req: OrderRequest) returns (r: Result<OrderDto, ResourceNotFoundException>)
      modifies this
      ensures var step := StoreSpec.UpdateOrder(old(State()), id, req); State() == step.next && r == step.out
    {
      ghost var s := State();
      ghost var spec := StoreSpec.UpdateOrderEvicting(s, id, req, false);
      assert StoreSpec.UpdateOrder(s, id, req) == spec;
      log := log + [FindById(OrderTable, id)];
      if id !in orders {
        r := Failure(NotFoundById("Order", id));
        assert State() == spec.next;
        return;
      }
      var order := orders[id];
      log := log + [FindById(CustomerTable, req.customerId)];
      if req.customerId !in customers {
        r := Failure(NotFoundById("Customer", req.customerId));
        assert State() == spec.next;
        return;
      }
      var customer := customers[req.customerId];
      order := order.(description := req.description);
      order := order.(customerId := req.customerId);
      orders := orders[id := order];
      log := log + [Save(OrderTable, id)];
      var result := OrderDto(id, req.description, OrderCustomerDto(req.customerId, customer.name),
                             OrderProductsOf(products, order.productIds));
      cache := cache.(orders := cache.orders[id := result]);
      // the two annotated evictions, the second under its condition
      cache := cache.(ordersByCustomer := cache.ordersByCustomer - StoreSpec.UpdateOrderEvictions(req, result));
      r := Success(result);
      assert State() == spec.next;
    }

    method DeleteOrder(id: int) returns (r: Outcome<ResourceNotFoundException>)
      modifies this
      ensures var step := StoreSpec.DeleteOrder(old(State()), id); State() == step.next && r == step.out
    {
      log := log + [FindById(OrderTable, id)];
      if id !in orders {
        return Fail(NotFoundById("Order", id));
      }
      var customerId := orders[id].customerId;
      orders := orders - {id};
      log := log + [DeleteById(OrderTable, id)];
      EvictCustomerOrders(Some(customerId));
      cache := Caches.EvictOrder(cache, id);
      r := Pass;
    }

    // ============================================================== products

    method CreateProduct(req: ProductRequest) returns (r: ProductDto)
      modifies this
      ensures var step := StoreSpec.CreateProduct(old(State()), req); State() == step.next && r == step.out
      ensures old(Coherent()) ==> Coherent()
    {
      ghost var s := State();
      var id := nextProductId;
      products := products[id := ProductRow(req.description)];
      nextProductId := id + 1;
      log := log + [Save(ProductTable, id)];
      r := ProductDto(id, req.description, {});
      cache := cache.(products := cache.products[id := r]);
      cache := Caches.Clear(cache, ProductSearch);
      if Coherence.Coherent(s) {
        Coherence.CreateProductKeepsCoherent(s, req);
      }
    }

    method UpdateProduct(id: int, req: ProductRequest) returns (r: Result<ProductDto, ResourceNotFoundException>)
      modifies this
      ensures var step := StoreSpec.UpdateProduct(old(State()), id, req); State() == step.next && r == step.out
      ensures old(Coherent()) ==> Coherence.FreshBesideOrders(State())
      ensures old(Coherent()) && Coherence.Unlinked(old(Db()), id) ==> Coherent()
    {
      ghost var s := State();
      log := log + [FindById(ProductTable, id)];
      if id !in products {
        r := Failure(NotFoundById("Product", id));
      } else {
        var product := products[id];
        product := product.(description := req.description);
        products := products[id := product];
        log := log + [Save(ProductTable, id)];
        var result := ProductDtoOf(Db(), id);
        cache := cache.(products := cache.products[id := result]);
        cache := Caches.Clear(cache, ProductSearch);
        r := Success(result);
      }
      if Coherence.Coherent(s) {
        Coherence.UpdateProductKeepsFresh(s, id, req);
      }
    }

    method DeleteProduct(id: int) returns (r: Outcome<ResourceNotFoundException>)
      modifies this
      ensures var step := StoreSpec.DeleteProduct(old(State()), id); State() == step.next && r == step.out
      ensures old(Coherent()) ==> Coherence.FreshBesideOrders(State())
      ensures old(Coherent()) && Coherence.Unlinked(old(Db()), id) ==> Coherent()
    {
      ghost var s := State();
      log := log + [ExistsById(ProductTable, id)];
      if id !in products {
        r := Fail(NotFoundById("Product", id));
      } else {
        log := log + [DeleteById(ProductTable, id)];
        var db := StoreSpec.WithoutProduct(Db(), id);
        products, orders := db.products, db.orders;
        cache := Caches.EvictProduct(cache, id);
        cache := Caches.Clear(cache, ProductSearch);
        r := Pass;
        assert Db() == StoreSpec.WithoutProduct(s.db, id);
      }
      assert State() == StoreSpec.DeleteProduct(s, id).next;
      if Coherence.Coherent(s) {
        Coherence.DeleteProductKeepsFresh(s, id);
      }
    }

    // ============================================================== the cache service

    method EvictCustomer(customerId: Option<int>)
      modifies this
      ensures State() == StoreSpec.EvictCustomer(old(State()), customerId)
      ensures old(Coherent()) ==> Coherent()
    {
      ghost var s := State();
      if customerId.Some? {
        cache := Caches.EvictCustomer(cache, customerId.value);
      }
      if Coherence.Coherent(s) {
        Coherence.ManualEvictionsKeepCoherent(s, customerId);
      }
    }

    method EvictCustomerOrders(customerId: Option<int>)
      modifies this
      ensures State() == StoreSpec.EvictCustomerOrders(old(State()), customerId)
      ensures old(Coherent()) ==> Coherent()
    {
      ghost var s := State();
      if customerId.Some? {
        cache := Caches.EvictCustomerOrders(cache, customerId.value);
      }
      if Coherence.Coherent(s) {
        Coherence.ManualEvictionsKeepCoherent(s, customerId);
      }
    }

    method EvictOrder(orderId: Option<int>)
      modifies this
      ensures State() == StoreSpec.EvictOrder(old(State()), orderId)
      ensures old(Coherent()) ==> Coherent()
    {
      ghost var s := State();
      if orderId.Some? {
        cache := Caches.EvictOrder(cache, orderId.value);
      }
      if Coherence.Coherent(s) {
        Coherence.ManualEvictionsKeepCoherent(s, orderId);
      }
    }

    method EvictAllCustomerSearches()
      modifies this
      ensures State() == StoreSpec.EvictAllCustomerSearches(old(State()))
      ensures old(Coherent()) ==> Coherent()
    {
      ghost var s := State();
      cache := Caches.Clear(cache, CustomerSearch);
      if Coherence.Coherent(s) {
        Coherence.ManualEvictionsKeepCoherent(s, None);
      }
    }

    /** Clears the caches one name at a time; afterwards the cache is coherent
        with the database whatever it held before. */
    method EvictAllCaches()
      modifies this
      ensures State() == StoreSpec.EvictAllCaches(old(State()))
      ensures ValidDb(Db()) ==> Coherent()
    {
      var names := AllNamespaces;
      var i := 0;
      while i < |names|
        invariant 0 <= i <= |names|
        invariant Db() == old(Db()) && log == old(log)
        invariant cache == Caches.ClearEach(old(cache), names[..i])
      {
        cache := Caches.Clear(cache, names[i]);
        ClearEachSnoc(old(cache), names[..i], names[i]);
        assert names[..i + 1] == names[..i] + [names[i]];
        i := i + 1;
      }
      assert names[..i] == AllNamespaces;
      Caches.ClearEachAll(old(cache), AllNamespaces);
      if ValidDb(Db()) {
        Coherence.EvictAllCachesRestoresCoherence(old(State()));
      }
    }

    method WarmupCache()
      ensures State() == StoreSpec.WarmupCache(old(State()))
    {
    }

    method GetCacheStats(cacheName: string) returns (r: string)
      modifies this
      ensures var step := StoreSpec.GetCacheStats(old(State()), cacheName); State() == step.next && r == step.out
      ensures old(Coherent()) ==> Coherent()
    {
      ghost var s := State();
      var known := NamespaceNamed(cacheName).Some? || cacheName in cache.created;
      if !known && cache.createOnMissing {
        cache := cache.(created := cache.created + {cacheName});
        known := true;
      }
      if known {
        r := "Cache " + cacheName + " is active";
      } else {
        r := "Cache " + cacheName + " not found";
      }
      if Coherence.Coherent(s) {
        Coherence.GetCacheStatsKeepsCoherent(s, cacheName);
      }
    }
  }

  /** Clearing one more namespace after a sequence of them. */
  lemma {:induction false} ClearEachSnoc(c: Caches.Cache, names: seq<Namespace>, ns: Namespace)
    ensures Caches.ClearEach(c, names + [ns]) == Caches.Clear(Caches.ClearEach(c, names), ns)
    decreases |names|
  {
    if names != [] {
      assert (names + [ns])[1..] == names[1..] + [ns];
      ClearEachSnoc(Caches.Clear(c, names[0]), names[1..], ns);
    }
  }
}
