/** When the cache tells the truth. A namespace is fresh when every entry it
    holds is what the repository would return for that key now; a state is
    coherent when the database is valid and every namespace is fresh. The
    lemmas say which operations keep which namespaces fresh, that a read from a
    fresh namespace returns what the repository holds, and where the services
    as written let a namespace go stale. */
module Coherence {
  import opened Wrappers
  import opened Dto
  import opened Repository
  import opened CacheConfig
  import opened StoreSpec
  import Caches
  import Text

  predicate Fresh(s: State, ns: Namespace) {
    match ns
    case Customers => forall id :: id in s.cache.customers ==> FindCustomer(s.db, id) == Some(s.cache.customers[id])
    case Orders => forall id :: id in s.cache.orders ==> FindOrder(s.db, id) == Some(s.cache.orders[id])
    case Products => forall id :: id in s.cache.products ==> FindProduct(s.db, id) == Some(s.cache.products[id])
    case CustomerSearch => forall q :: q in s.cache.customerSearch ==> s.cache.customerSearch[q] == FindCustomersByName(s.db, q)
    case ProductSearch => forall q :: q in s.cache.productSearch ==> s.cache.productSearch[q] == FindProductsByDescription(s.db, q)
    case OrdersByCustomer => forall c :: c in s.cache.ordersByCustomer ==> s.cache.ordersByCustomer[c] == FindOrdersByCustomerId(s.db, c)
  }

  predicate Coherent(s: State) {
    ValidDb(s.db) && forall ns :: Fresh(s, ns)
  }

  // ================================================================ framing

  /** A namespace whose entries and database did not change stays fresh. */
  lemma FreshTransfer(s: State, t: State, ns: Namespace)
    requires t.db == s.db && Caches.Same(t.cache, s.cache, ns) && Fresh(s, ns)
    ensures Fresh(t, ns)
  {
  }

  /** An empty namespace is trivially fresh. */
  lemma EmptyIsFresh(s: State, ns: Namespace)
    requires Caches.IsEmpty(s.cache, ns)
    ensures Fresh(s, ns)
  {
  }

  /** A step that keeps the database and changes only namespace `changed`, which
      it leaves fresh, keeps a coherent state coherent. */
  lemma CoherentExceptOne(s: State, t: State, changed: Namespace)
    requires Coherent(s) && t.db == s.db && Fresh(t, changed)
    requires forall ns :: ns != changed ==> Caches.Same(t.cache, s.cache, ns)
    ensures Coherent(t)
  {
    forall ns
      ensures Fresh(t, ns)
    {
      if ns != changed {
        FreshTransfer(s, t, ns);
      }
    }
  }

  /** Coherence does not depend on the log of repository calls. */
  lemma LogOnlyKeepsCoherent(s: State, t: State)
    requires Coherent(s) && t.db == s.db && t.cache == s.cache
    ensures Coherent(t)
  {
    forall ns
      ensures Fresh(t, ns)
    {
      assert Fresh(s, ns);
    }
  }

  /** Coherence, namespace by namespace. */
  lemma AllFresh(t: State)
    requires ValidDb(t.db)
    requires Fresh(t, Customers) && Fresh(t, Orders) && Fresh(t, CustomerSearch)
    requires Fresh(t, OrdersByCustomer) && Fresh(t, Products) && Fresh(t, ProductSearch)
    ensures Coherent(t)
  {
    forall ns
      ensures Fresh(t, ns)
    {
      match ns
      case Customers =>
      case Orders =>
      case CustomerSearch =>
      case OrdersByCustomer =>
      case Products =>
      case ProductSearch =>
    }
  }

  // ================================================================ DTOs that a database change leaves alone

  lemma CustomerDtoUnchanged(db: Db, db': Db, k: int)
    requires k in db.customers && k in db'.customers && db'.customers[k] == db.customers[k]
    requires forall o :: o in db'.orders && db'.orders[o].customerId == k ==>
                           o in db.orders && db.orders[o].customerId == k && db'.orders[o].description == db.orders[o].description
    requires forall o :: o in db.orders && db.orders[o].customerId == k ==> o in db'.orders && db'.orders[o].customerId == k
    ensures CustomerDtoOf(db', k) == CustomerDtoOf(db, k)
  {
    var a, b := CustomerDtoOf(db', k).orders, CustomerDtoOf(db, k).orders;
    forall x | x in a
      ensures x in b
    {
      var o :| o in db'.orders && db'.orders[o].customerId == k && x == CustomerOrderDto(o, db'.orders[o].description);
      assert x == CustomerOrderDto(o, db.orders[o].description);
    }
    forall x | x in b
      ensures x in a
    {
      var o :| o in db.orders && db.orders[o].customerId == k && x == CustomerOrderDto(o, db.orders[o].description);
      assert x == CustomerOrderDto(o, db'.orders[o].description);
    }
  }

  lemma OrderListUnchanged(db: Db, db': Db, k: int)
    requires forall o :: o in db'.orders && db'.orders[o].customerId == k ==>
                           o in db.orders && db.orders[o].customerId == k && OrderDtoOf(db', o) == OrderDtoOf(db, o)
    requires forall o :: o in db.orders && db.orders[o].customerId == k ==> o in db'.orders && db'.orders[o].customerId == k
    ensures FindOrdersByCustomerId(db', k) == FindOrdersByCustomerId(db, k)
  {
    var a, b := FindOrdersByCustomerId(db', k), FindOrdersByCustomerId(db, k);
    forall x | x in a
      ensures x in b
    {
      var o :| o in db'.orders && db'.orders[o].customerId == k && x == OrderDtoOf(db', o);
      assert x == OrderDtoOf(db, o);
    }
    forall x | x in b
      ensures x in a
    {
      var o :| o in db.orders && db.orders[o].customerId == k && x == OrderDtoOf(db, o);
      assert x == OrderDtoOf(db', o);
    }
  }

  lemma ProductDtoUnchanged(db: Db, db': Db, p: int)
    requires p in db.products && p in db'.products && db'.products[p] == db.products[p]
    requires forall o :: o in db'.orders && p in db'.orders[o].productIds ==> o in db.orders && p in db.orders[o].productIds
    requires forall o :: o in db.orders && p in db.orders[o].productIds ==> o in db'.orders && p in db'.orders[o].productIds
    ensures ProductDtoOf(db', p) == ProductDtoOf(db, p)
  {
    var a, b := ProductDtoOf(db', p).orderIds, ProductDtoOf(db, p).orderIds;
    forall o
      ensures o in a <==> o in b
    {
      if o in a {
        assert o in db'.orders && p in db'.orders[o].productIds;
      }
      if o in b {
        assert o in db.orders && p in db.orders[o].productIds;
      }
    }
  }

  lemma CustomerSearchUnchanged(db: Db, db': Db, q: string)
    requires db'.customers == db.customers
    requires forall k :: k in db.customers ==> CustomerDtoOf(db', k) == CustomerDtoOf(db, k)
    ensures FindCustomersByName(db', q) == FindCustomersByName(db, q)
  {
    var a, b := FindCustomersByName(db', q), FindCustomersByName(db, q);
    forall x | x in a
      ensures x in b
    {
      var k :| k in db'.customers && MatchesIgnoreCase(db'.customers[k].name, q) && x == CustomerDtoOf(db', k);
      assert x == CustomerDtoOf(db, k);
    }
    forall x | x in b
      ensures x in a
    {
      var k :| k in db.customers && MatchesIgnoreCase(db.customers[k].name, q) && x == CustomerDtoOf(db, k);
      assert x == CustomerDtoOf(db', k);
    }
  }

  lemma ProductSearchUnchanged(db: Db, db': Db, q: string)
    requires db'.products == db.products
    requires forall k :: k in db.products ==> ProductDtoOf(db', k) == ProductDtoOf(db, k)
    ensures FindProductsByDescription(db', q) == FindProductsByDescription(db, q)
  {
    var a, b := FindProductsByDescription(db', q), FindProductsByDescription(db, q);
    forall x | x in a
      ensures x in b
    {
      var k :| k in db'.products && MatchesIgnoreCase(db'.products[k].description, q) && x == ProductDtoOf(db', k);
      assert x == ProductDtoOf(db, k);
    }
    forall x | x in b
      ensures x in a
    {
      var k :| k in db.products && MatchesIgnoreCase(db.products[k].description, q) && x == ProductDtoOf(db, k);
      assert x == ProductDtoOf(db', k);
    }
  }

  // ================================================================ reads

  /** A read from a fresh namespace returns what the repository holds, hit or
      miss, and leaves the namespace fresh; every other namespace is untouched. */
  lemma GetCustomerByIdSound(s: State, id: int)
    requires Fresh(s, Customers)
    ensures GetCustomerById(s, id).out == FindCustomer(s.db, id)
    ensures Fresh(GetCustomerById(s, id).next, Customers)
    ensures Coherent(s) ==> Coherent(GetCustomerById(s, id).next)
  {
    var r := GetCustomerById(s, id);
    if Coherent(s) {
      CoherentExceptOne(s, r.next, Customers);
    }
  }

  lemma GetOrderByIdSound(s: State, id: int)
    requires Fresh(s, Orders)
    ensures GetOrderById(s, id).out == FindOrder(s.db, id)
    ensures Fresh(GetOrderById(s, id).next, Orders)
    ensures Coherent(s) ==> Coherent(GetOrderById(s, id).next)
  {
    var r := GetOrderById(s, id);
    if Coherent(s) {
      CoherentExceptOne(s, r.next, Orders);
    }
  }

  lemma GetProductByIdSound(s: State, id: int)
    requires Fresh(s, Products)
    ensures GetProductById(s, id).out == FindProduct(s.db, id)
    ensures Fresh(GetProductById(s, id).next, Products)
    ensures Coherent(s) ==> Coherent(GetProductById(s, id).next)
  {
    var r := GetProductById(s, id);
    if Coherent(s) {
      CoherentExceptOne(s, r.next, Products);
    }
  }

  /** With `orders-by-customer` fresh, the list returned for a customer is
      exactly its orders, each reporting that customer. */
  lemma GetOrdersByCustomerIdSound(s: State, customerId: int)
    requires Fresh(s, OrdersByCustomer)
    ensures GetOrdersByCustomerId(s, customerId).out == FindOrdersByCustomerId(s.db, customerId)
    ensures forall d :: d in GetOrdersByCustomerId(s, customerId).out ==> d.customer.id == customerId
    ensures Fresh(GetOrdersByCustomerId(s, customerId).next, OrdersByCustomer)
    ensures Coherent(s) ==> Coherent(GetOrdersByCustomerId(s, customerId).next)
  {
    var r := GetOrdersByCustomerId(s, customerId);
    forall d | d in r.out
      ensures d.customer.id == customerId
    {
      OrdersByCustomerIdExact(s.db, customerId, d);
    }
    if Coherent(s) {
      CoherentExceptOne(s, r.next, OrdersByCustomer);
    }
  }

  /** The search is cached under the lower-cased query, and the repository's
      answer depends on nothing else, so the cached answer is the one for the
      query as given. */
  lemma FindCustomersByNameContainingSound(s: State, nameQuery: string)
    requires Fresh(s, CustomerSearch)
    ensures FindCustomersByNameContaining(s, nameQuery).out == FindCustomersByName(s.db, nameQuery)
    ensures Fresh(FindCustomersByNameContaining(s, nameQuery).next, CustomerSearch)
    ensures Coherent(s) ==> Coherent(FindCustomersByNameContaining(s, nameQuery).next)
  {
    var r := FindCustomersByNameContaining(s, nameQuery);
    var key := Text.Lower(nameQuery);
    SearchDependsOnLowerCase(s.db, nameQuery, nameQuery);
    assert r.next.cache.customerSearch == s.cache.customerSearch[key := r.out];
    if Coherent(s) {
      CoherentExceptOne(s, r.next, CustomerSearch);
    }
  }

  lemma FindProductsByDescriptionContainingSound(s: State, description: string)
    requires Fresh(s, ProductSearch)
    ensures FindProductsByDescriptionContaining(s, description).out == FindProductsByDescription(s.db, description)
    ensures Fresh(FindProductsByDescriptionContaining(s, description).next, ProductSearch)
    ensures Coherent(s) ==> Coherent(FindProductsByDescriptionContaining(s, description).next)
  {
    var r := FindProductsByDescriptionContaining(s, description);
    var key := Text.Lower(description);
    SearchDependsOnLowerCase(s.db, description, description);
    assert r.next.cache.productSearch == s.cache.productSearch[key := r.out];
    if Coherent(s) {
      CoherentExceptOne(s, r.next, ProductSearch);
    }
  }

  /** Two searches that differ only in letter case share one entry: the second
      is answered from the cache, with no repository call, and gets the first's result. */
  lemma SearchesDifferingInCaseShareEntry(s: State, q1: string, q2: string)
    requires Text.Lower(q1) == Text.Lower(q2)
    ensures var first := FindCustomersByNameContaining(s, q1);
            var second := FindCustomersByNameContaining(first.next, q2);
            second.next == first.next && second.out == first.out
    ensures var first := FindProductsByDescriptionContaining(s, q1);
            var second := FindProductsByDescriptionContaining(first.next, q2);
            second.next == first.next && second.out == first.out
  {
  }

  /** A customer just created is served from the cache: no repository call. */
  lemma CreatedCustomerIsCached(s: State, req: CustomerRequest)
    ensures var created := CreateCustomer(s, req);
            var read := GetCustomerById(created.next, created.out.id);
            read.next == created.next && read.out == Some(created.out)
  {
  }

  // ================================================================ customer writes

  /** Creating a customer keeps every namespace fresh: the new entry is what the
      repository returns for the new id, `customer-search` is emptied, and no
      other entry depends on a customer that did not exist. */
  lemma CreateCustomerKeepsCoherent(s: State, req: CustomerRequest)
    requires Coherent(s)
    ensures Coherent(CreateCustomer(s, req).next)
  {
    var r := CreateCustomer(s, req);
    var db, db' := s.db, r.next.db;
    var id := r.out.id;
    assert Fresh(s, Customers) && Fresh(s, Orders) && Fresh(s, Products);
    assert Fresh(s, OrdersByCustomer) && Fresh(s, ProductSearch);
    forall k | k in db.customers
      ensures CustomerDtoOf(db', k) == CustomerDtoOf(db, k)
    {
      CustomerDtoUnchanged(db, db', k);
    }
    forall o | o in db.orders
      ensures OrderDtoOf(db', o) == OrderDtoOf(db, o)
    {
      assert db.orders[o].customerId in db.customers;
    }
    forall ns
      ensures Fresh(r.next, ns)
    {
      match ns
      case Customers =>
      case Orders =>
      case CustomerSearch =>
      case OrdersByCustomer =>
        forall c | c in r.next.cache.ordersByCustomer
          ensures r.next.cache.ordersByCustomer[c] == FindOrdersByCustomerId(db', c)
        {
          OrderListUnchanged(db, db', c);
        }
      case Products =>
        forall p | p in r.next.cache.products
          ensures FindProduct(db', p) == Some(r.next.cache.products[p])
        {
          ProductDtoUnchanged(db, db', p);
        }
      case ProductSearch =>
        forall p | p in db.products
          ensures ProductDtoOf(db', p) == ProductDtoOf(db, p)
        {
          ProductDtoUnchanged(db, db', p);
        }
        forall q | q in r.next.cache.productSearch
          ensures r.next.cache.productSearch[q] == FindProductsByDescription(db', q)
        {
          ProductSearchUnchanged(db, db', q);
        }
    }
  }

  /** Updating a customer keeps `customers` fresh (its own entry is replaced by
      the saved customer, the others keep their names and orders) and
      `customer-search` (emptied). */
  lemma UpdateCustomerKeepsCustomersFresh(s: State, id: int, req: CustomerRequest)
    requires Fresh(s, Customers) && Fresh(s, CustomerSearch)
    ensures Fresh(UpdateCustomer(s, id, req).next, Customers)
    ensures Fresh(UpdateCustomer(s, id, req).next, CustomerSearch)
  {
    var r := UpdateCustomer(s, id, req);
    if r.out.Success? {
      var db := s.db;
      var db' := db.(customers := db.customers[id := CustomerRow(req.name)]);
      assert r.next.db == db';
      forall k | k in r.next.cache.customers && k != id
        ensures FindCustomer(db', k) == Some(r.next.cache.customers[k])
      {
        assert k in s.cache.customers;
        CustomerDtoUnchanged(db, db', k);
      }
    }
  }

  /** Products do not show customers, so updating a customer keeps both product
      namespaces fresh. */
  lemma UpdateCustomerKeepsProductsFresh(s: State, id: int, req: CustomerRequest)
    requires Fresh(s, Products) && Fresh(s, ProductSearch)
    ensures Fresh(UpdateCustomer(s, id, req).next, Products)
    ensures Fresh(UpdateCustomer(s, id, req).next, ProductSearch)
  {
    var r := UpdateCustomer(s, id, req);
    if r.out.Success? {
      var db := s.db;
      var db' := db.(customers := db.customers[id := CustomerRow(req.name)]);
      assert r.next.db == db';
      forall p | p in db.products
        ensures ProductDtoOf(db', p) == ProductDtoOf(db, p)
      {
        ProductDtoUnchanged(db, db', p);
      }
      forall q | q in r.next.cache.productSearch
        ensures r.next.cache.productSearch[q] == FindProductsByDescription(db', q)
      {
        ProductSearchUnchanged(db, db', q);
      }
    }
  }

  /** An order shows its customer's name, and renaming the customer evicts no
      order: a cached order of a renamed customer keeps the old name. */
  lemma UpdateCustomerLeavesOrderNameStale(s: State, id: int, req: CustomerRequest, o: int)
    requires Fresh(s, Orders) && o in s.cache.orders && o in s.db.orders && s.db.orders[o].customerId == id
    requires id in s.db.customers && req.name != s.db.customers[id].name
    ensures var next := UpdateCustomer(s, id, req).next;
            && o in next.cache.orders
            && next.cache.orders[o].customer.name != FindOrder(next.db, o).value.customer.name
            && !Fresh(next, Orders)
  {
    var next := UpdateCustomer(s, id, req).next;
    assert s.cache.orders[o] == OrderDtoOf(s.db, o);
    assert FindOrder(next.db, o).value.customer.name == req.name;
  }

  /** Deleting a customer keeps `customers` (its entry is evicted, and the
      remaining customers keep their orders), `customer-search` (emptied) and
      `orders-by-customer` (its list is evicted, other lists keep their orders) fresh. */
  lemma DeleteCustomerKeepsFresh(s: State, id: int)
    requires ValidDb(s.db) && Fresh(s, Customers) && Fresh(s, CustomerSearch) && Fresh(s, OrdersByCustomer)
    ensures var next := DeleteCustomer(s, id).next;
            Fresh(next, Customers) && Fresh(next, CustomerSearch) && Fresh(next, OrdersByCustomer)
  {
    var r := DeleteCustomer(s, id);
    if r.out.Pass? {
      var db, db' := s.db, r.next.db;
      forall k | k in r.next.cache.customers
        ensures FindCustomer(db', k) == Some(r.next.cache.customers[k])
      {
        CustomerDtoUnchanged(db, db', k);
      }
      forall c | c in r.next.cache.ordersByCustomer
        ensures r.next.cache.ordersByCustomer[c] == FindOrdersByCustomerId(db', c)
      {
        forall o | o in db'.orders && db'.orders[o].customerId == c
          ensures OrderDtoOf(db', o) == OrderDtoOf(db, o)
        {
          assert CustomerName(db', c) == CustomerName(db, c);
        }
        OrderListUnchanged(db, db', c);
      }
    }
  }

  /** FINDING (as written). The customer's orders are deleted with it, but their
      `orders` entries are not evicted: a cached order of a deleted customer
      outlives it, and `getOrderById` keeps returning it although the
      repository no longer has it. */
  lemma DeleteCustomerLeavesOrdersCached(s: State, id: int, o: int)
    requires id in s.db.customers && o in s.db.orders && s.db.orders[o].customerId == id && o in s.cache.orders
    ensures var next := DeleteCustomer(s, id).next;
            && DeleteCustomer(s, id).out == Pass
            && FindOrder(next.db, o) == None
            && GetOrderById(next, o).out == Some(s.cache.orders[o])
            && !Fresh(next, Orders)
  {
    var next := DeleteCustomer(s, id).next;
    assert o !in next.db.orders;
  }

  /** The customer's orders and their join rows are deleted with it, and no
      product is evicted: a cached product that one of those orders linked
      keeps listing the deleted order's id. */
  lemma DeleteCustomerLeavesProductOrderIdsStale(s: State, id: int, o: int, p: int)
    requires Fresh(s, Products) && id in s.db.customers
    requires o in s.db.orders && s.db.orders[o].customerId == id && p in s.db.orders[o].productIds && p in s.cache.products
    ensures var next := DeleteCustomer(s, id).next;
            && GetProductById(next, p).out == Some(s.cache.products[p])
            && o in s.cache.products[p].orderIds
            && FindProduct(next.db, p).Some?
            && o !in FindProduct(next.db, p).value.orderIds
            && !Fresh(next, Products)
  {
    var next := DeleteCustomer(s, id).next;
    assert FindProduct(s.db, p) == Some(s.cache.products[p]);
    assert o !in next.db.orders;
  }

  /** The corrected delete also keeps `orders` fresh: the entries it evicts are
      exactly those of the deleted orders, and the orders that remain belong to
      customers that remain. */
  lemma DeleteCustomerCorrectedKeepsFresh(s: State, id: int)
    requires ValidDb(s.db) && Fresh(s, Customers) && Fresh(s, CustomerSearch) && Fresh(s, Orders) && Fresh(s, OrdersByCustomer)
    ensures var next := DeleteCustomerCorrected(s, id).next;
            && Fresh(next, Customers) && Fresh(next, CustomerSearch) && Fresh(next, OrdersByCustomer)
            && Fresh(next, Orders)
  {
    var r := DeleteCustomerCorrected(s, id);
    var w := DeleteCustomer(s, id);
    DeleteCustomerKeepsFresh(s, id);
    if r.out.Pass? {
      var db, db' := s.db, r.next.db;
      FreshTransfer(w.next, r.next, Customers);
      FreshTransfer(w.next, r.next, CustomerSearch);
      FreshTransfer(w.next, r.next, OrdersByCustomer);
      forall o | o in r.next.cache.orders
        ensures FindOrder(db', o) == Some(r.next.cache.orders[o])
      {
        assert o !in OrderIdsOf(db, id);
        assert o in db.orders && db.orders[o].customerId != id;
        assert CustomerName(db', db.orders[o].customerId) == CustomerName(db, db.orders[o].customerId);
      }
    }
  }

  // ================================================================ order writes

  /** Creating an order keeps `orders` fresh (the new entry is the saved order;
      no other order changes), `orders-by-customer` (the customer's list is
      evicted; no other list gains an order) and both product namespaces (the
      new order is in no product). */
  lemma CreateOrderKeepsFresh(s: State, req: OrderRequest)
    requires ValidDb(s.db)
    requires Fresh(s, Orders) && Fresh(s, OrdersByCustomer) && Fresh(s, Products) && Fresh(s, ProductSearch)
    ensures var next := CreateOrder(s, req).next;
            Fresh(next, Orders) && Fresh(next, OrdersByCustomer) && Fresh(next, Products) && Fresh(next, ProductSearch)
  {
    var r := CreateOrder(s, req);
    if r.out.Success? {
      var db := s.db;
      var id := db.nextOrderId;
      var db' := db.(orders := db.orders[id := OrderRow(req.description, req.customerId, {})], nextOrderId := id + 1);
      assert r.next.db == db';
      assert id !in db.orders;
      forall c | c in r.next.cache.ordersByCustomer
        ensures r.next.cache.ordersByCustomer[c] == FindOrdersByCustomerId(db', c)
      {
        OrderListUnchanged(db, db', c);
      }
      forall p | p in db.products
        ensures ProductDtoOf(db', p) == ProductDtoOf(db, p)
      {
        ProductDtoUnchanged(db, db', p);
      }
      forall q | q in r.next.cache.productSearch
        ensures r.next.cache.productSearch[q] == FindProductsByDescription(db', q)
      {
        ProductSearchUnchanged(db, db', q);
      }
    }
  }

  /** A customer lists its orders, and creating an order evicts no customer: a
      cached customer misses its newest order. */
  lemma CreateOrderLeavesCustomerStale(s: State, req: OrderRequest)
    requires ValidDb(s.db) && Fresh(s, Customers)
    requires req.customerId in s.db.customers && req.customerId in s.cache.customers
    ensures var r := CreateOrder(s, req);
            && r.out.Success?
            && GetCustomerById(r.next, req.customerId).out == Some(s.cache.customers[req.customerId])
            && CustomerOrderDto(r.out.value.id, req.description) in FindCustomer(r.next.db, req.customerId).value.orders
            && CustomerOrderDto(r.out.value.id, req.description) !in s.cache.customers[req.customerId].orders
  {
    var r := CreateOrder(s, req);
    var id := r.out.value.id;
    assert id !in s.db.orders;
    assert s.cache.customers[req.customerId] == CustomerDtoOf(s.db, req.customerId);
    assert id in r.next.db.orders && r.next.db.orders[id].customerId == req.customerId;
  }

  /** A customer search lists the matching customers with their orders, and
      creating an order leaves `customer-search` alone: a cached search that
      matches the customer keeps the customer without its newest order. */
  lemma CreateOrderLeavesCustomerSearchStale(s: State, req: OrderRequest, q: string)
    requires ValidDb(s.db) && Fresh(s, CustomerSearch) && req.customerId in s.db.customers
    requires q in s.cache.customerSearch && MatchesIgnoreCase(s.db.customers[req.customerId].name, q)
    ensures var r := CreateOrder(s, req);
            var before := CustomerDtoOf(s.db, req.customerId);
            && r.out.Success?
            && r.next.cache.customerSearch[q] == s.cache.customerSearch[q]
            && before in s.cache.customerSearch[q]
            && before !in FindCustomersByName(r.next.db, q)
            && !Fresh(r.next, CustomerSearch)
  {
    var r := CreateOrder(s, req);
    var c := req.customerId;
    var db, db' := s.db, r.next.db;
    var before := CustomerDtoOf(db, c);
    var id := r.out.value.id;
    assert before in FindCustomersByName(db, q);
    assert id !in db.orders;
    assert CustomerOrderDto(id, req.description) !in before.orders;
    assert CustomerOrderDto(id, req.description) in CustomerDtoOf(db', c).orders;
  }

  /** `updateOrder` keeps `orders` fresh (its entry is replaced by the saved
      order, and no other order changes) and both product namespaces (the
      order's product links stay as they were). */
  lemma UpdateOrderKeepsFresh(s: State, id: int, req: OrderRequest)
    requires Fresh(s, Orders) && Fresh(s, Products) && Fresh(s, ProductSearch)
    ensures var next := UpdateOrder(s, id, req).next;
            Fresh(next, Orders) && Fresh(next, Products) && Fresh(next, ProductSearch)
  {
    var r := UpdateOrder(s, id, req);
    if r.out.Success? {
      var db := s.db;
      var db' := db.(orders := db.orders[id := db.orders[id].(description := req.description, customerId := req.customerId)]);
      assert r.next.db == db';
      forall p | p in db.products
        ensures ProductDtoOf(db', p) == ProductDtoOf(db, p)
      {
        ProductDtoUnchanged(db, db', p);
      }
      forall q | q in r.next.cache.productSearch
        ensures r.next.cache.productSearch[q] == FindProductsByDescription(db', q)
      {
        ProductSearchUnchanged(db, db', q);
      }
    }
  }

  /** The conditional eviction on `updateOrder` compares the request's customer
      with the result's, which is the same customer once the order has been
      reassigned to it: the condition never holds, so only the new customer's
      list is ever evicted. */
  lemma UpdateOrderConditionNeverHolds(s: State, id: int, req: OrderRequest)
    ensures var r := UpdateOrder(s, id, req);
            r.out.Success? ==> UpdateOrderEvictions(req, r.out.value) == {req.customerId}
  {
  }

  /** An update that keeps the order with its customer keeps
      `orders-by-customer` fresh: the one list that shows the order is evicted. */
  lemma UpdateOrderSameCustomerKeepsLists(s: State, id: int, req: OrderRequest)
    requires Fresh(s, OrdersByCustomer)
    requires id in s.db.orders ==> s.db.orders[id].customerId == req.customerId
    ensures Fresh(UpdateOrder(s, id, req).next, OrdersByCustomer)
  {
    var r := UpdateOrder(s, id, req);
    if r.out.Success? {
      var db := s.db;
      var db' := db.(orders := db.orders[id := db.orders[id].(description := req.description, customerId := req.customerId)]);
      assert r.next.db == db';
      forall c | c in r.next.cache.ordersByCustomer
        ensures r.next.cache.ordersByCustomer[c] == FindOrdersByCustomerId(db', c)
      {
        assert c != req.customerId;
        OrderListUnchanged(db, db', c);
      }
    }
  }

  /** FINDING (as written). Moving an order to another customer leaves the old
      customer's cached list as it was: `getOrdersByCustomerId` for the old
      customer still returns the moved order, which the repository now lists
      under the new customer only. */
  lemma UpdateOrderLeavesOldCustomerList(s: State, id: int, req: OrderRequest)
    requires Fresh(s, OrdersByCustomer)
    requires id in s.db.orders && req.customerId in s.db.customers
    requires s.db.orders[id].customerId != req.customerId && s.db.orders[id].customerId in s.cache.ordersByCustomer
    ensures var oldCustomer := s.db.orders[id].customerId;
            var next := UpdateOrder(s, id, req).next;
            && OrderDtoOf(s.db, id) in GetOrdersByCustomerId(next, oldCustomer).out
            && (forall d :: d in FindOrdersByCustomerId(next.db, oldCustomer) ==> d.id != id)
            && !Fresh(next, OrdersByCustomer)
  {
    var oldCustomer := s.db.orders[id].customerId;
    var next := UpdateOrder(s, id, req).next;
    assert OrderDtoOf(s.db, id) in FindOrdersByCustomerId(s.db, oldCustomer);
    forall d | d in FindOrdersByCustomerId(next.db, oldCustomer)
      ensures d.id != id
    {
      OrdersByCustomerIdExact(next.db, oldCustomer, d);
    }
  }

  /** The corrected update evicts the old customer's list as well, and keeps
      `orders-by-customer` fresh whoever the order moves to. */
  lemma UpdateOrderCorrectedKeepsLists(s: State, id: int, req: OrderRequest)
    requires Fresh(s, OrdersByCustomer)
    ensures Fresh(UpdateOrderCorrected(s, id, req).next, OrdersByCustomer)
  {
    var r := UpdateOrderCorrected(s, id, req);
    if r.out.Success? {
      var db := s.db;
      var db' := db.(orders := db.orders[id := db.orders[id].(description := req.description, customerId := req.customerId)]);
      assert r.next.db == db';
      forall c | c in r.next.cache.ordersByCustomer
        ensures r.next.cache.ordersByCustomer[c] == FindOrdersByCustomerId(db', c)
      {
        assert c != req.customerId && c != db.orders[id].customerId;
        OrderListUnchanged(db, db', c);
      }
    }
  }

  /** Deleting an order keeps `orders` fresh (its entry is evicted) and
      `orders-by-customer` (its customer's list is evicted, no other list showed it). */
  lemma DeleteOrderKeepsFresh(s: State, id: int)
    requires Fresh(s, Orders) && Fresh(s, OrdersByCustomer)
    ensures Fresh(DeleteOrder(s, id).next, Orders) && Fresh(DeleteOrder(s, id).next, OrdersByCustomer)
  {
    var r := DeleteOrder(s, id);
    if r.out.Pass? {
      var db := s.db;
      var db' := db.(orders := db.orders - {id});
      assert r.next.db == db';
      forall c | c in r.next.cache.ordersByCustomer
        ensures r.next.cache.ordersByCustomer[c] == FindOrdersByCustomerId(db', c)
      {
        assert c != db.orders[id].customerId;
        OrderListUnchanged(db, db', c);
      }
    }
  }

  /** A customer lists its orders, and deleting an order evicts no customer: a
      cached customer keeps listing the deleted order, and `getCustomerById`
      serves it. */
  lemma DeleteOrderLeavesCustomerStale(s: State, id: int)
    requires Fresh(s, Customers) && id in s.db.orders && s.db.orders[id].customerId in s.cache.customers
    ensures var c := s.db.orders[id].customerId;
            var next := DeleteOrder(s, id).next;
            && GetCustomerById(next, c).out == Some(s.cache.customers[c])
            && CustomerOrderDto(id, s.db.orders[id].description) in s.cache.customers[c].orders
            && FindCustomer(next.db, c).Some?
            && (forall d :: d in FindCustomer(next.db, c).value.orders ==> d.id != id)
            && !Fresh(next, Customers)
  {
    var c := s.db.orders[id].customerId;
    var next := DeleteOrder(s, id).next;
    assert FindCustomer(s.db, c) == Some(s.cache.customers[c]);
    assert CustomerOrderDto(id, s.db.orders[id].description) in CustomerDtoOf(s.db, c).orders;
    assert id !in next.db.orders;
  }

  /** A product lists the orders that link it, and deleting an order (which
      removes its join rows) evicts no product: a cached product keeps listing
      the deleted order's id, and `getProductById` serves it. */
  lemma DeleteOrderLeavesProductOrderIdsStale(s: State, id: int, p: int)
    requires Fresh(s, Products) && id in s.db.orders && p in s.db.orders[id].productIds && p in s.cache.products
    ensures var next := DeleteOrder(s, id).next;
            && GetProductById(next, p).out == Some(s.cache.products[p])
            && id in s.cache.products[p].orderIds
            && FindProduct(next.db, p).Some?
            && id !in FindProduct(next.db, p).value.orderIds
            && !Fresh(next, Products)
  {
    var next := DeleteOrder(s, id).next;
    assert FindProduct(s.db, p) == Some(s.cache.products[p]);
    assert id !in next.db.orders;
  }

  /** A product search lists the matching products with their order ids, and
      deleting an order leaves `product-search` alone: a cached search that
      matches a product the order linked keeps listing the deleted order's id. */
  lemma DeleteOrderLeavesProductSearchStale(s: State, id: int, p: int, q: string)
    requires Fresh(s, ProductSearch) && id in s.db.orders && p in s.db.orders[id].productIds && p in s.db.products
    requires q in s.cache.productSearch && MatchesIgnoreCase(s.db.products[p].description, q)
    ensures var next := DeleteOrder(s, id).next;
            var before := ProductDtoOf(s.db, p);
            && next.cache.productSearch[q] == s.cache.productSearch[q]
            && before in s.cache.productSearch[q]
            && before !in FindProductsByDescription(next.db, q)
            && !Fresh(next, ProductSearch)
  {
    var next := DeleteOrder(s, id).next;
    var db, db' := s.db, next.db;
    var before := ProductDtoOf(db, p);
    assert before in FindProductsByDescription(db, q);
    assert id in before.orderIds;
  }

  /** An order's description is listed inside its customer, and `updateOrder`
      evicts no customer: a cached customer keeps the order's old description. */
  lemma UpdateOrderLeavesCustomerStale(s: State, id: int, req: OrderRequest)
    requires Fresh(s, Customers) && id in s.db.orders && req.customerId == s.db.orders[id].customerId
    requires req.customerId in s.cache.customers && req.description != s.db.orders[id].description
    ensures var next := UpdateOrder(s, id, req).next;
            var listed := CustomerOrderDto(id, s.db.orders[id].description);
            && GetCustomerById(next, req.customerId).out == Some(s.cache.customers[req.customerId])
            && listed in s.cache.customers[req.customerId].orders
            && listed !in FindCustomer(next.db, req.customerId).value.orders
            && !Fresh(next, Customers)
  {
    var next := UpdateOrder(s, id, req).next;
    var listed := CustomerOrderDto(id, s.db.orders[id].description);
    assert FindCustomer(s.db, req.customerId) == Some(s.cache.customers[req.customerId]);
    assert listed in CustomerDtoOf(s.db, req.customerId).orders;
    assert next.db.orders[id].description == req.description;
  }

  // ================================================================ product writes

  /** No order links product `p` through a join row. */
  predicate Unlinked(db: Db, p: int) {
    forall o :: o in db.orders ==> p !in db.orders[o].productIds
  }

  /** Every namespace but the two that hold order snapshots is fresh. */
  predicate FreshBesideOrders(s: State) {
    ValidDb(s.db) && forall ns :: ns !in {Orders, OrdersByCustomer} ==> Fresh(s, ns)
  }

  /** The products an order lists change only if one of its linked products does. */
  lemma OrderProductsUnchanged(products: map<int, ProductRow>, products': map<int, ProductRow>, ids: set<int>)
    requires forall p :: p in ids ==> (p in products' <==> p in products)
    requires forall p :: p in ids && p in products ==> products'[p] == products[p]
    ensures OrderProductsOf(products', ids) == OrderProductsOf(products, ids)
  {
    var a, b := OrderProductsOf(products', ids), OrderProductsOf(products, ids);
    forall x | x in a
      ensures x in b
    {
      var p :| p in ids && p in products' && x == OrderProductDto(p, products'[p].description);
      assert x == OrderProductDto(p, products[p].description);
    }
    forall x | x in b
      ensures x in a
    {
      var p :| p in ids && p in products && x == OrderProductDto(p, products[p].description);
      assert x == OrderProductDto(p, products'[p].description);
    }
  }

  /** Customers list their orders by id and description only, and a product
      write changes no order's id, description or customer: both customer
      namespaces stay fresh. */
  lemma ProductWriteKeepsCustomersFresh(s: State, t: State)
    requires Coherent(s) && t.db.customers == s.db.customers
    requires t.db.orders.Keys == s.db.orders.Keys
    requires forall o :: o in t.db.orders ==>
                           t.db.orders[o].description == s.db.orders[o].description && t.db.orders[o].customerId == s.db.orders[o].customerId
    requires Caches.Same(t.cache, s.cache, Customers) && Caches.Same(t.cache, s.cache, CustomerSearch)
    ensures Fresh(t, Customers) && Fresh(t, CustomerSearch)
  {
    var db, db' := s.db, t.db;
    assert Fresh(s, Customers) && Fresh(s, CustomerSearch);
    forall k | k in db.customers
      ensures CustomerDtoOf(db', k) == CustomerDtoOf(db, k)
    {
      CustomerDtoUnchanged(db, db', k);
    }
    forall q | q in t.cache.customerSearch
      ensures t.cache.customerSearch[q] == FindCustomersByName(db', q)
    {
      CustomerSearchUnchanged(db, db', q);
    }
  }

  /** A write to product `id` that no order links, and that changes no order
      row and no other product, leaves both order namespaces fresh: every order
      lists the same products as before. */
  lemma UnlinkedProductWriteKeepsOrdersFresh(s: State, t: State, id: int)
    requires Coherent(s) && Unlinked(s.db, id)
    requires t.db.customers == s.db.customers && t.db.orders == s.db.orders
    requires forall p :: p != id ==> (p in t.db.products <==> p in s.db.products)
    requires forall p :: p != id && p in s.db.products ==> t.db.products[p] == s.db.products[p]
    requires Caches.Same(t.cache, s.cache, Orders) && Caches.Same(t.cache, s.cache, OrdersByCustomer)
    ensures Fresh(t, Orders) && Fresh(t, OrdersByCustomer)
  {
    var db, db' := s.db, t.db;
    assert Fresh(s, Orders) && Fresh(s, OrdersByCustomer);
    forall o | o in db.orders
      ensures OrderDtoOf(db', o) == OrderDtoOf(db, o)
    {
      assert id !in db.orders[o].productIds;
      OrderProductsUnchanged(db.products, db'.products, db.orders[o].productIds);
    }
    forall c | c in t.cache.ordersByCustomer
      ensures t.cache.ordersByCustomer[c] == FindOrdersByCustomerId(db', c)
    {
      OrderListUnchanged(db, db', c);
    }
  }

  /** Creating a product keeps every namespace fresh: the new entry is what the
      repository returns for the new id, `product-search` is emptied, and no
      order links to the new product yet. */
  lemma CreateProductKeepsCoherent(s: State, req: ProductRequest)
    requires Coherent(s)
    ensures Coherent(CreateProduct(s, req).next)
  {
    var r := CreateProduct(s, req);
    var db, db' := s.db, r.next.db;
    assert ValidDb(db) && ValidDb(db');
    ProductWriteKeepsCustomersFresh(s, r.next);
    forall o | o in db.orders
      ensures r.out.id !in db.orders[o].productIds
    {
      assert db.orders[o].productIds <= db.products.Keys;
    }
    UnlinkedProductWriteKeepsOrdersFresh(s, r.next, r.out.id);
    assert Fresh(s, Products);
    forall p | p in r.next.cache.products && p != r.out.id
      ensures FindProduct(db', p) == Some(r.next.cache.products[p])
    {
      ProductDtoUnchanged(db, db', p);
    }
    assert Fresh(r.next, Products);
    EmptyIsFresh(r.next, ProductSearch);
    AllFresh(r.next);
  }

  /** Updating a product keeps both product namespaces fresh (its entry is
      replaced by the saved product, other products keep their rows and links,
      and `product-search` is emptied) and both customer namespaces; when no
      order links the product, the whole cache stays coherent. */
  lemma UpdateProductKeepsFresh(s: State, id: int, req: ProductRequest)
    requires Coherent(s)
    ensures FreshBesideOrders(UpdateProduct(s, id, req).next)
    ensures Unlinked(s.db, id) ==> Coherent(UpdateProduct(s, id, req).next)
  {
    var r := UpdateProduct(s, id, req);
    if r.out.Success? {
      var db, db' := s.db, r.next.db;
      assert ValidDb(db');
      ProductWriteKeepsCustomersFresh(s, r.next);
      assert Fresh(s, Products);
      forall p | p in r.next.cache.products
        ensures FindProduct(db', p) == Some(r.next.cache.products[p])
      {
        if p != id {
          ProductDtoUnchanged(db, db', p);
        }
      }
      EmptyIsFresh(r.next, ProductSearch);
      if Unlinked(db, id) {
        UnlinkedProductWriteKeepsOrdersFresh(s, r.next, id);
        AllFresh(r.next);
      }
    } else {
      LogOnlyKeepsCoherent(s, r.next);
    }
  }

  /** An order lists its products, and updating a product evicts no order: a
      cached order that links the product keeps listing the old description,
      and `getOrderById` serves it. */
  lemma UpdateProductLeavesOrderSnapshotStale(s: State, id: int, req: ProductRequest, o: int)
    requires Fresh(s, Orders) && o in s.cache.orders && o in s.db.orders && id in s.db.orders[o].productIds
    requires id in s.db.products && req.description != s.db.products[id].description
    ensures var next := UpdateProduct(s, id, req).next;
            var listed := OrderProductDto(id, s.db.products[id].description);
            && GetOrderById(next, o).out == Some(s.cache.orders[o])
            && listed in s.cache.orders[o].products
            && listed !in FindOrder(next.db, o).value.products
            && !Fresh(next, Orders)
  {
    var next := UpdateProduct(s, id, req).next;
    var listed := OrderProductDto(id, s.db.products[id].description);
    assert s.cache.orders[o] == OrderDtoOf(s.db, o);
    assert listed in OrderProductsOf(s.db.products, s.db.orders[o].productIds);
    assert next.db.products[id].description == req.description;
    assert next.db.orders[o] == s.db.orders[o];
  }

  /** Deleting a product keeps both product namespaces fresh (its entry is
      evicted, `product-search` emptied, the other products keep their links)
      and both customer namespaces; when no order links the product, the whole
      cache stays coherent. */
  lemma DeleteProductKeepsFresh(s: State, id: int)
    requires Coherent(s)
    ensures FreshBesideOrders(DeleteProduct(s, id).next)
    ensures Unlinked(s.db, id) ==> Coherent(DeleteProduct(s, id).next)
  {
    var r := DeleteProduct(s, id);
    if r.out.Pass? {
      var db, db' := s.db, r.next.db;
      assert ValidDb(db');
      ProductWriteKeepsCustomersFresh(s, r.next);
      assert Fresh(s, Products);
      forall p | p in r.next.cache.products
        ensures FindProduct(db', p) == Some(r.next.cache.products[p])
      {
        ProductDtoUnchanged(db, db', p);
      }
      EmptyIsFresh(r.next, ProductSearch);
      if Unlinked(db, id) {
        forall o | o in db.orders
          ensures db'.orders[o] == db.orders[o]
        {
          assert db.orders[o].productIds - {id} == db.orders[o].productIds;
        }
        assert db'.orders == db.orders;
        UnlinkedProductWriteKeepsOrdersFresh(s, r.next, id);
        AllFresh(r.next);
      }
    } else {
      LogOnlyKeepsCoherent(s, r.next);
    }
  }

  /** Deleting a product removes its join rows, and evicts no order: a cached
      order that linked the product keeps listing it, and `getOrderById` serves
      it, although the repository's order no longer lists it. */
  lemma DeleteProductLeavesOrderListingIt(s: State, id: int, o: int)
    requires Fresh(s, Orders) && o in s.cache.orders && o in s.db.orders && id in s.db.orders[o].productIds
    requires id in s.db.products
    ensures var next := DeleteProduct(s, id).next;
            && GetOrderById(next, o).out == Some(s.cache.orders[o])
            && OrderProductDto(id, s.db.products[id].description) in s.cache.orders[o].products
            && (forall d :: d in FindOrder(next.db, o).value.products ==> d.id != id)
            && !Fresh(next, Orders)
  {
    var next := DeleteProduct(s, id).next;
    assert s.cache.orders[o] == OrderDtoOf(s.db, o);
    assert OrderProductDto(id, s.db.products[id].description) in OrderProductsOf(s.db.products, s.db.orders[o].productIds);
    assert id !in next.db.orders[o].productIds;
  }

  // ================================================================ the cache service

  /** A started application is coherent: the database is empty and valid, and so is every cache. */
  lemma InitialIsCoherent(createOnMissing: bool)
    ensures Coherent(Initial(createOnMissing))
  {
    EmptyDbValid();
    var s := Initial(createOnMissing);
    forall ns
      ensures Fresh(s, ns)
    {
      EmptyIsFresh(s, ns);
    }
  }

  /** Evicting entries by hand never makes the cache lie: each eviction removes
      keys from one namespace and leaves the rest as they were. */
  lemma ManualEvictionsKeepCoherent(s: State, id: Option<int>)
    requires Coherent(s)
    ensures Coherent(EvictCustomer(s, id)) && Coherent(EvictCustomerOrders(s, id))
    ensures Coherent(EvictOrder(s, id)) && Coherent(EvictAllCustomerSearches(s))
    ensures Coherent(WarmupCache(s))
  {
    assert Fresh(s, Customers) && Fresh(s, OrdersByCustomer) && Fresh(s, Orders);
    CoherentExceptOne(s, EvictCustomer(s, id), Customers);
    CoherentExceptOne(s, EvictCustomerOrders(s, id), OrdersByCustomer);
    CoherentExceptOne(s, EvictOrder(s, id), Orders);
    EmptyIsFresh(EvictAllCustomerSearches(s), CustomerSearch);
    CoherentExceptOne(s, EvictAllCustomerSearches(s), CustomerSearch);
  }

  /** After `evictAllCaches` the cache is coherent with any valid database,
      whatever it held before: every namespace is empty. */
  lemma EvictAllCachesRestoresCoherence(s: State)
    requires ValidDb(s.db)
    ensures Coherent(EvictAllCaches(s))
  {
    var t := EvictAllCaches(s);
    forall ns
      ensures Fresh(t, ns)
    {
      EmptyIsFresh(t, ns);
    }
  }

  /** `getCacheStats` only looks a cache up: coherence is kept. */
  lemma GetCacheStatsKeepsCoherent(s: State, cacheName: string)
    requires Coherent(s)
    ensures Coherent(GetCacheStats(s, cacheName).next)
  {
    var t := GetCacheStats(s, cacheName).next;
    forall ns
      ensures Fresh(t, ns)
    {
      FreshTransfer(s, t, ns);
    }
  }

  /** FINDING (as written). The Redis cache manager is built without turning
      off its default of creating missing caches, so `getCache` never returns
      null and `getCacheStats` reports every name as active, even a name that
      is not configured; the "not found" message is never produced. */
  lemma GetCacheStatsReportsEveryNameActive(cacheName: string)
    ensures GetCacheStats(Initial(true), cacheName).out == "Cache " + cacheName + " is active"
    ensures NamespaceNamed("no-such-cache").None?
    ensures GetCacheStats(Initial(true), "no-such-cache").out == "Cache no-such-cache is active"
  {
    NoSuchCacheUnconfigured();
  }

  lemma NoSuchCacheUnconfigured()
    ensures NamespaceNamed("no-such-cache").None?
  {
    var name := "no-such-cache";
    assert name[0] == 'n' && name[1] == 'o' && name[2] == '-';
  }

  /** With a manager that knows only the configured names (the evidently
      intended behaviour), `getCacheStats` reports exactly the configured
      namespaces as active and every other name as not found. */
  lemma GetCacheStatsCorrected(cacheName: string)
    ensures var out := GetCacheStats(Initial(false), cacheName).out;
            && (NamespaceNamed(cacheName).Some? ==> out == "Cache " + cacheName + " is active")
            && (NamespaceNamed(cacheName).None? ==> out == "Cache " + cacheName + " not found")
    ensures forall ns :: GetCacheStats(Initial(false), Name(ns)).out == "Cache " + Name(ns) + " is active"
  {
    forall ns
      ensures GetCacheStats(Initial(false), Name(ns)).out == "Cache " + Name(ns) + " is active"
    {
      NamesDistinct(ns, ns);
    }
  }
}
