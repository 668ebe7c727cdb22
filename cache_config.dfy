/** The cache namespaces, their names and their time-to-live table, and the
    rule that no namespace stores a null value. */
module CacheConfig {
  import opened Wrappers

  datatype Namespace = Customers | Orders | CustomerSearch | OrdersByCustomer | Products | ProductSearch

  /** Every namespace the cache manager is configured with. */
  const AllNamespaces: seq<Namespace> := [Customers, Orders, CustomerSearch, OrdersByCustomer, Products, ProductSearch]

  lemma AllNamespacesListed(ns: Namespace)
    ensures ns in AllNamespaces
  {
  }

  /** The name each namespace is registered under. */
  function Name(ns: Namespace): string {
    match ns
    case Customers => "customers"
    case Orders => "orders"
    case CustomerSearch => "customer-search"
    case OrdersByCustomer => "orders-by-customer"
    case Products => "products"
    case ProductSearch => "product-search"
  }

  /** The cache manager's `getCache(name)`: the namespace registered under `name`, if any. */
  function NamespaceNamed(name: string): (r: Option<Namespace>)
    ensures r.Some? ==> Name(r.value) == name
    ensures r.None? ==> forall ns :: Name(ns) != name
  {
    if name == "customers" then Some(Customers)
    else if name == "orders" then Some(Orders)
    else if name == "customer-search" then Some(CustomerSearch)
    else if name == "orders-by-customer" then Some(OrdersByCustomer)
    else if name == "products" then Some(Products)
    else if name == "product-search" then Some(ProductSearch)
    else None
  }

  /** The six names are pairwise distinct, so every namespace is found by its own name. */
  lemma NamesDistinct(a: Namespace, b: Namespace)
    ensures Name(a) == Name(b) ==> a == b
    ensures NamespaceNamed(Name(a)) == Some(a)
  {
  }

  /** The TTL of the default cache configuration. */
  const DefaultTtlMinutes: nat := 30

  /** The TTL each namespace is configured with, in minutes. */
  function TtlMinutes(ns: Namespace): nat {
    match ns
    case Customers => 60
    case Orders => 60
    case CustomerSearch => 15
    case OrdersByCustomer => 30
    case Products => 60
    case ProductSearch => 15
  }

  predicate IsSingleEntity(ns: Namespace) {
    ns == Customers || ns == Orders || ns == Products
  }

  predicate IsSearch(ns: Namespace) {
    ns == CustomerSearch || ns == ProductSearch
  }

  /** Single entities live one hour, search results fifteen minutes, and the
      relationship list is set to thirty minutes, the default value; so search < relationship
      < single entity. */
  lemma TtlTable(ns: Namespace)
    ensures IsSingleEntity(ns) ==> TtlMinutes(ns) == 60
    ensures IsSearch(ns) ==> TtlMinutes(ns) == 15
    ensures ns == OrdersByCustomer ==> TtlMinutes(ns) == DefaultTtlMinutes
    ensures IsSearch(ns) ==> TtlMinutes(ns) < TtlMinutes(OrdersByCustomer) < TtlMinutes(Customers)
  {
  }

  /** `disableCachingNullValues()`: no namespace accepts a null value. */
  const CachesNullValues: bool := false
}
