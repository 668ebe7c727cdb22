/** The contents of the six cache namespaces and the cache manager's
    operations on them: clearing, evicting one key, and looking a cache up by name. */
module Caches {
  import opened Wrappers
  import opened Dto
  import opened CacheConfig

  /** One map per namespace, keyed as the annotations key them; `created` holds
      the names of caches the manager created on demand (they never hold an
      entry), and `createOnMissing` says whether it does so. */
  datatype Cache = Cache(
    customers: map<int, CustomerDto>,
    orders: map<int, OrderDto>,
    customerSearch: map<string, set<CustomerDto>>,
    ordersByCustomer: map<int, set<OrderDto>>,
    products: map<int, ProductDto>,
    productSearch: map<string, set<ProductDto>>,
    created: set<string>,
    createOnMissing: bool)

  /** A cache manager with nothing cached. The configured Redis cache manager
      keeps its builder's default of creating missing caches. */
  function EmptyCache(createOnMissing: bool): Cache {
    Cache(map[], map[], map[], map[], map[], map[], {}, createOnMissing)
  }

  predicate IsEmpty(c: Cache, ns: Namespace) {
    match ns
    case Customers => c.customers == map[]
    case Orders => c.orders == map[]
    case CustomerSearch => c.customerSearch == map[]
    case OrdersByCustomer => c.ordersByCustomer == map[]
    case Products => c.products == map[]
    case ProductSearch => c.productSearch == map[]
  }

  /** Namespace `ns` holds the same entries in `a` and `b`. */
  predicate Same(a: Cache, b: Cache, ns: Namespace) {
    match ns
    case Customers => a.customers == b.customers
    case Orders => a.orders == b.orders
    case CustomerSearch => a.customerSearch == b.customerSearch
    case OrdersByCustomer => a.ordersByCustomer == b.ordersByCustomer
    case Products => a.products == b.products
    case ProductSearch => a.productSearch == b.productSearch
  }

  predicate SameManager(a: Cache, b: Cache) {
    a.created == b.created && a.createOnMissing == b.createOnMissing
  }

  /** `Cache.clear()` on namespace `ns`: it ends empty and no other namespace changes. */
  function Clear(c: Cache, ns: Namespace): (r: Cache)
    ensures IsEmpty(r, ns) && SameManager(r, c)
    ensures forall other :: other != ns ==> Same(r, c, other)
  {
    match ns
    case Customers => c.(customers := map[])
    case Orders => c.(orders := map[])
    case CustomerSearch => c.(customerSearch := map[])
    case OrdersByCustomer => c.(ordersByCustomer := map[])
    case Products => c.(products := map[])
    case ProductSearch => c.(productSearch := map[])
  }

  /** Every namespace cleared, the cache manager otherwise as it was. */
  function ClearAll(c: Cache): (r: Cache)
    ensures forall ns :: IsEmpty(r, ns)
    ensures SameManager(r, c)
  {
    EmptyCache(c.createOnMissing).(created := c.created)
  }

  /** Clearing the namespaces one after another, in the order of `names`. */
  function ClearEach(c: Cache, names: seq<Namespace>): Cache
    decreases |names|
  {
    if names == [] then c else ClearEach(Clear(c, names[0]), names[1..])
  }

  /** Clearing every configured namespace in turn is clearing them all. */
  lemma {:induction false} ClearEachAll(c: Cache, names: seq<Namespace>)
    ensures var r := ClearEach(c, names);
            && SameManager(r, c)
            && (forall ns :: ns in names ==> IsEmpty(r, ns))
            && (forall ns :: ns !in names ==> Same(r, c, ns))
    ensures ClearEach(c, AllNamespaces) == ClearAll(c)
    decreases |names|
  {
    if names != [] {
      ClearEachAll(Clear(c, names[0]), names[1..]);
      var r := ClearEach(c, names);
      forall ns | ns in names
        ensures IsEmpty(r, ns)
      {
        if ns !in names[1..] {
          assert ns == names[0];
        }
      }
      forall ns | ns !in names
        ensures Same(r, c, ns)
      {
        assert ns !in names[1..] && ns != names[0];
        SameTransitive(r, Clear(c, names[0]), c, ns);
      }
    }
    ClearEachFixed(c);
  }

  lemma SameTransitive(a: Cache, b: Cache, c: Cache, ns: Namespace)
    requires Same(a, b, ns) && Same(b, c, ns)
    ensures Same(a, c, ns)
  {
  }

  lemma ClearEachFixed(c: Cache)
    ensures ClearEach(c, AllNamespaces) == ClearAll(c)
  {
    var r := ClearEach(c, AllNamespaces);
    assert r == Clear(Clear(Clear(Clear(Clear(Clear(c, Customers), Orders), CustomerSearch), OrdersByCustomer), Products), ProductSearch);
  }

  // ---------------------------------------------------------------- single-key evictions

  /** `Cache.evict(key)` on `customers`. */
  function EvictCustomer(c: Cache, id: int): (r: Cache)
    ensures r.customers == c.customers - {id} && SameManager(r, c)
    ensures forall ns :: ns != Customers ==> Same(r, c, ns)
  {
    c.(customers := c.customers - {id})
  }

  function EvictOrder(c: Cache, id: int): (r: Cache)
    ensures r.orders == c.orders - {id} && SameManager(r, c)
    ensures forall ns :: ns != Orders ==> Same(r, c, ns)
  {
    c.(orders := c.orders - {id})
  }

  function EvictCustomerOrders(c: Cache, customerId: int): (r: Cache)
    ensures r.ordersByCustomer == c.ordersByCustomer - {customerId} && SameManager(r, c)
    ensures forall ns :: ns != OrdersByCustomer ==> Same(r, c, ns)
  {
    c.(ordersByCustomer := c.ordersByCustomer - {customerId})
  }

  function EvictProduct(c: Cache, id: int): (r: Cache)
    ensures r.products == c.products - {id} && SameManager(r, c)
    ensures forall ns :: ns != Products ==> Same(r, c, ns)
  {
    c.(products := c.products - {id})
  }

  // ---------------------------------------------------------------- the cache manager

  /** The names the cache manager knows: the configured ones and those it created. */
  predicate Known(c: Cache, name: string) {
    NamespaceNamed(name).Some? || name in c.created
  }

  /** `cacheManager.getCache(name) != null`, and the manager after the call: an
      unknown name is created on the spot when the manager creates missing caches. */
  function GetCache(c: Cache, name: string): (r: (Cache, bool))
    ensures r.1 <==> Known(c, name) || c.createOnMissing
    ensures r.1 ==> Known(r.0, name)
    ensures forall ns :: Same(r.0, c, ns)
    ensures r.0.createOnMissing == c.createOnMissing && c.created <= r.0.created
  {
    if Known(c, name) then (c, true)
    else if c.createOnMissing then (c.(created := c.created + {name}), true)
    else (c, false)
  }

  /** The time-to-live of the cache named `name`: a configured namespace's own,
      and the default for a cache created on demand. */
  function TtlOfName(name: string): (minutes: nat)
    ensures NamespaceNamed(name).None? ==> minutes == DefaultTtlMinutes
    ensures forall ns :: Name(ns) == name ==> minutes == TtlMinutes(ns)
  {
    match NamespaceNamed(name)
    case Some(ns) => TtlMinutes(ns)
    case None => DefaultTtlMinutes
  }
}
