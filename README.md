# Store cache coherence

A model of the storefront's caching layer. The customer, order and product
services read through and write around a Redis cache of six namespaces:
`customers`, `orders`, `customer-search`, `orders-by-customer`, `products` and
`product-search`. The cache effects are exactly those of each method's
cache annotations:

- a cacheable read answers from the cache on a hit, and otherwise loads from the
  repository and stores a non-empty result (an empty one is returned unstored,
  as `unless = "#result == null"` would make it; the error the configuration
  raises instead is under "Findings");
- puts and evictions happen only when the method returns normally.

A DTO is a snapshot of several rows, and a write evicts only what its
annotations name. The writes therefore leave these namespaces stale. The
searches are stale wherever the entity they list is: a customer search lists
customers with their orders, a product search lists products with their order
ids.

- renaming a customer: `orders` and `orders-by-customer` (orders show the customer's name);
- deleting a customer: `orders` (cascaded orders stay cached), `products` and `product-search` (their order ids);
- creating an order: `customers` and `customer-search` (a customer lists its orders);
- updating an order: `customers` and `customer-search` (the order's description), and the old customer's list;
- deleting an order: `customers`, `customer-search` (both list the order), `products` and `product-search` (both list its id);
- updating or deleting a product: `orders` and `orders-by-customer` (orders list their products).

`coherence.dfy` exhibits a stale entry for each of these except five, which
follow by the same argument: `orders-by-customer` after renaming a customer and
after a product write, `customer-search` after updating or deleting an order,
and `product-search` after deleting a customer.

A cache service evicts entries by hand, clears every cache and reports whether
a cache exists. Around this state machine sit smaller pieces:

- the entities' constructors, equality, hashing, printing and field constraints;
- the product mapper's projection of orders onto ids;
- the not-found exception's message;
- the two REST controllers' list dispatch, page-size rule and not-found conversion;
- the pageable resolver that the web configuration registers.

Layout:

- `wrappers.dfy`: `Option`, `Result` and `Outcome`.
- `text.dfy`: `Long.toString`, `toLowerCase`, `trim` and `contains`.
- `exceptions.dfy`: the not-found and page-size exceptions.
- `cache_config.dfy`: namespace names, time-to-live table and the no-null rule.
- `entities.dfy`: the `Order` and `Customer` entities.
- `product_mapper.dfy`: `mapOrdersToIds` and its use in the product mapping.
- `dto.dfy`: the DTOs and the request types.
- `repository.dfy`: the database tables, the DTO each row maps to, and the
  repository queries.
- `cache_spec.dfy` (module `Caches`): the six namespaces and the cache manager's
  clear, evict and lookup operations.
- `store_spec.dfy` (module `StoreSpec`): every service and cache-service
  operation as a transition of a state made of database, cache and
  repository-call log.
- `coherence.dfy`: when a cached entry tells the truth (`Fresh`, `Coherent`),
  and which operations keep it so.
- `store.dfy` (module `Services`): the class `Store`. Its methods update the
  tables, the cache and the log in place. Each is proved to make exactly the
  transition its `StoreSpec` function describes.
- `controllers.dfy`: the customer and product controllers.
- `web_config.dfy`: `addArgumentResolvers` and the resolver's clamping rule.

## Model

| member | source | states |
|---|---|---|
| Text.Decimal | src/main/java/com/securitease/store/exception/ResourceNotFoundException.java:35 | a Long rendered in decimal is non-empty and starts with '-' exactly when the value is negative |
| Text.DecimalRoundTrip | src/main/java/com/securitease/store/entity/Order.java:69-72 | parsing the decimal rendering of any integer gives the integer back |
| Text.DecimalInjective | src/main/java/com/securitease/store/exception/ResourceNotFoundException.java:35 | distinct integers render differently |
| Text.Lower | src/main/java/com/example/store/service/impl/CustomerServiceImpl.java:77 | lower-casing keeps the length and maps each character by the ASCII rule of `toLowerCase` (A–Z to a–z, every other character unchanged) |
| Text.LowerIdempotent | src/main/java/com/example/store/service/impl/CustomerServiceImpl.java:77 | a lower-cased cache key lower-cases to itself |
| Text.Trim | src/main/java/com/securitease/store/controller/CustomerController.java:74-75 | `trim` yields an infix of the input that neither starts nor ends with a character up to U+0020, and every character cut off before or after it is at most U+0020 |
| Text.TrimEmptyIffBlank | src/main/java/com/securitease/store/controller/CustomerController.java:74 | `s.trim().isEmpty()` holds iff every character of `s` is at most U+0020 |
| Exceptions.NotFoundWithMessage | src/main/java/com/securitease/store/exception/ResourceNotFoundException.java:21-23 | the one-argument constructor keeps the message as given |
| Exceptions.NotFound | src/main/java/com/securitease/store/exception/ResourceNotFoundException.java:34-36 | the formatted message is the resource name, then " not found with ", the field name and ": ", then the field value, each part at its position |
| Exceptions.NotFoundByIdNamesResource | src/main/java/com/securitease/store/exception/ResourceNotFoundException.java:35 | a not-found-by-id message begins with, and so contains, the resource name |
| Exceptions.NotFoundByIdCarriesId | src/main/java/com/securitease/store/exception/ResourceNotFoundException.java:35 | the id can be parsed back from the end of the message |
| Exceptions.NotFoundByIdInjective | src/main/java/com/securitease/store/exception/ResourceNotFoundException.java:35 | two ids of one resource with the same message are the same id |
| Exceptions.OrderOneMessage | src/main/java/com/securitease/store/exception/ResourceNotFoundException.java:35 | order 1 gives "Order not found with id: 1" |
| Exceptions.InvalidPageSize | src/main/java/com/securitease/store/controller/CustomerController.java:98-100 | the page-size violation carries the code INVALID_PAGE_SIZE |
| CacheConfig.AllNamespacesListed | src/main/java/com/securitease/store/config/CacheConfig.java:51-56 | every namespace is among the configured ones |
| CacheConfig.NamespaceNamed | src/main/java/com/securitease/store/config/CacheConfig.java:51-56 | a name is found exactly when some namespace is registered under it, and then that namespace |
| CacheConfig.NamesDistinct | src/main/java/com/securitease/store/config/CacheConfig.java:51-56 | the six names are pairwise distinct, and each namespace is found by its own name |
| CacheConfig.TtlTable | src/main/java/com/securitease/store/config/CacheConfig.java:73-107 | entity caches live 60 minutes, searches 15, the relationship cache is set to 30, equal to the default; search < relationship < entity |
| Caches.Clear | src/main/java/com/securitease/store/service/CacheService.java:71-75 | `clear()` empties one namespace and leaves every other namespace and the manager unchanged |
| Caches.ClearAll | src/main/java/com/securitease/store/service/CacheService.java:81-87 | every namespace empty, the manager otherwise unchanged |
| Caches.ClearEachAll | src/main/java/com/securitease/store/service/CacheService.java:82-85 | clearing the listed names in turn empties exactly those, and over all names it is `ClearAll` |
| Caches.EvictCustomer | src/main/java/com/securitease/store/service/CacheService.java:38-39 | removes exactly key `id` from `customers`; no other namespace changes |
| Caches.EvictOrder | src/main/java/com/securitease/store/service/CacheService.java:64-65 | removes exactly key `id` from `orders`; no other namespace changes |
| Caches.EvictCustomerOrders | src/main/java/com/securitease/store/service/CacheService.java:51-52 | removes exactly key `customerId` from `orders-by-customer`; no other namespace changes |
| Caches.EvictProduct | src/main/java/com/securitease/store/service/impl/ProductServiceImpl.java:125 | removes exactly key `id` from `products`; no other namespace changes |
| Caches.GetCache | src/main/java/com/securitease/store/service/CacheService.java:109-110 | the manager returns a cache iff the name is known or it creates missing caches; no namespace's entries change |
| Caches.TtlOfName | src/main/java/com/securitease/store/config/CacheConfig.java:72-107 | a configured name has its namespace's TTL, any other name the 30-minute default |
| Entities.NewCustomer | src/main/java/com/securitease/store/entity/Customer.java:36-40 | `new Customer(name)` has no id, the name, and an empty order list |
| Entities.NewOrder | src/main/java/com/securitease/store/entity/Order.java:40-53 | `new Order(description, customer)` has no id, the description and the customer, and (see Findings) no product list |
| Entities.NewOrderLeavesProductsNull | src/main/java/com/securitease/store/entity/Order.java:40-53 | the constructor's order has a null product list and differs from the intended one |
| Entities.NewOrderCorrected | src/main/java/com/securitease/store/entity/Order.java:48-53 | the intended constructor also starts with an empty product list |
| Entities.EmptyOrder | src/main/java/com/securitease/store/entity/Order.java:22-48 | the no-argument order has only the empty product list set |
| Entities.OrderEqualsMeaning | src/main/java/com/securitease/store/entity/Order.java:56-60 | `equals` holds iff same object or an Order with an equal id; null and other types are never equal |
| Entities.OrderEqualsIsEquivalence | src/main/java/com/securitease/store/entity/Order.java:56-60 | between distinct objects order equality is reflexive, symmetric and transitive; two unsaved orders are equal |
| Entities.CustomerEqualsMeaning | src/main/java/com/securitease/store/entity/Customer.java:43-47 | `equals` holds iff same object or a Customer with an equal id |
| Entities.CustomerEqualsIsEquivalence | src/main/java/com/securitease/store/entity/Customer.java:43-47 | customer equality is an equivalence on ids; two unsaved customers are equal |
| Entities.ToInt | src/main/java/com/securitease/store/entity/Order.java:63-65 | narrowing to `int` yields an `int` congruent to its argument modulo 2^32 |
| Entities.LongHashCode | src/main/java/com/securitease/store/entity/Order.java:64 | `Long.hashCode` of a long is an `int` |
| Entities.IdHash | src/main/java/com/securitease/store/entity/Order.java:64 | `Objects.hash(id)` is an `int`, and 31 for a null id |
| Entities.OrderHashConsistent | src/main/java/com/securitease/store/entity/Order.java:56-65 | equal orders have equal hash codes |
| Entities.CustomerHashConsistent | src/main/java/com/securitease/store/entity/Customer.java:43-52 | equal customers have equal hash codes |
| Entities.OrderToStringShape | src/main/java/com/securitease/store/entity/Order.java:67-73 | the text opens with "Order{id=" and the id (which parses back) and closes with the customer's id, or null |
| Entities.CustomerToStringShape | src/main/java/com/securitease/store/entity/Customer.java:54-57 | the text is "Customer{id=" then the id (which parses back) then the quoted name |
| Entities.NotBlankIffVisibleChar | src/main/java/com/securitease/store/entity/Order.java:31 | `@NotBlank` (`trim().length() > 0`) holds iff the value is present and has a character above U+0020 |
| Entities.NewOrderValid | src/main/java/com/securitease/store/entity/Order.java:31-38 | a description that is not blank after `trim()` and 5..255 characters long, with a customer, is valid; no customer, or no description, is not |
| Entities.BlankNameRefused | src/main/java/com/securitease/store/entity/Customer.java:30-33 | a name of characters up to U+0020 only, control characters included, fails the customer's constraints whatever its length; a name of two U+2000 spaces passes them |
| ProductMapper.MapOrdersToIds | src/main/java/com/securitease/store/mapper/ProductMapper.java:25-29 | null gives the empty list; otherwise same length, element i the id of order i |
| ProductMapper.ProductToProductDto | src/main/java/com/securitease/store/mapper/ProductMapper.java:15-16 | id and description copied; `orderIds` are the ids of the product's orders |
| ProductMapper.MapOrdersToIdsAppend | src/main/java/com/securitease/store/mapper/ProductMapper.java:28 | the projection distributes over concatenation, so order is preserved |
| ProductMapper.MapOrdersToIdsOfSavedOrders | src/main/java/com/securitease/store/mapper/ProductMapper.java:28 | for saved orders no id is null, and an id is listed iff some order carries it |
| ProductMapper.NoOrdersNoIds | src/main/java/com/securitease/store/mapper/ProductMapper.java:25-27 | a product with a null or empty order list has no order ids |
| ProductMapper.MapperAgreesWithRepository | src/main/java/com/securitease/store/mapper/ProductMapper.java:15-29 | for a saved product whose list holds the saved orders linking it, the mapped ids are, without a null, the `orderIds` of its repository DTO |
| Repository.FindCustomer | src/main/java/com/example/store/service/impl/CustomerServiceImpl.java:72 | `findById` finds a customer iff the id is in the table |
| Repository.FindOrder | src/main/java/com/securitease/store/service/impl/OrderServiceImpl.java:77 | `findById` finds an order iff the id is in the table |
| Repository.FindProduct | src/main/java/com/securitease/store/service/impl/ProductServiceImpl.java:78 | `findById` finds a product iff the id is in the table |
| Repository.OrdersByCustomerIdExact | src/main/java/com/securitease/store/service/impl/OrderServiceImpl.java:83-86 | `findByCustomerId` returns exactly the orders referencing the customer, each naming that customer |
| Repository.CustomerDtoListsItsOrders | src/main/java/com/securitease/store/entity/Customer.java:35-36 | a customer DTO lists exactly the orders whose customer is that customer |
| Repository.SearchDependsOnLowerCase | src/main/java/com/example/store/service/impl/CustomerServiceImpl.java:77-80 | the case-insensitive searches give one answer for queries with equal lower case, both sides folded by the ASCII rule |
| StoreSpec.GetCustomerById | src/main/java/com/example/store/service/impl/CustomerServiceImpl.java:67-73 | a hit returns the cached value with no repository call; a miss returns `findById` and caches it only when present; no other namespace changes |
| StoreSpec.GetOrderById | src/main/java/com/securitease/store/service/impl/OrderServiceImpl.java:72-78 | read-through on `orders/#id`: hit without repository call, miss loads and caches a present result |
| StoreSpec.GetProductById | src/main/java/com/securitease/store/service/impl/ProductServiceImpl.java:72-79 | read-through on `products/#id`; an empty lookup stores nothing |
| StoreSpec.StoringNull | src/main/java/com/securitease/store/config/CacheConfig.java:78 | as configured, a by-id read ends in the cache's null-value error exactly when the read's answer is empty, and otherwise returns it; the state is the read's |
| StoreSpec.GetOrdersByCustomerId | src/main/java/com/securitease/store/service/impl/OrderServiceImpl.java:80-87 | read-through on `orders-by-customer/#customerId`; the list, even empty, is cached |
| StoreSpec.FindCustomersByNameContaining | src/main/java/com/example/store/service/impl/CustomerServiceImpl.java:75-82 | read-through keyed by the lower-cased query |
| StoreSpec.FindProductsByDescriptionContaining | src/main/java/com/securitease/store/service/impl/ProductServiceImpl.java:81-89 | read-through keyed by the lower-cased description |
| StoreSpec.GetAllCustomers | src/main/java/com/example/store/service/impl/CustomerServiceImpl.java:51-57 | not cached: one repository call, and the result is every customer's DTO |
| StoreSpec.GetAllProducts | src/main/java/com/securitease/store/service/impl/ProductServiceImpl.java:54-61 | not cached: one repository call, and the result is every product's DTO |
| StoreSpec.NewCustomerHasNoOrders | src/main/java/com/example/store/service/impl/CustomerServiceImpl.java:90-93 | in a valid database no order references the next customer id |
| StoreSpec.CreateCustomer | src/main/java/com/example/store/service/impl/CustomerServiceImpl.java:84-97 | saves the name under a fresh id, puts the result under `customers/result.id`, empties `customer-search`; the repository then returns exactly the result |
| StoreSpec.UpdateCustomer | src/main/java/com/example/store/service/impl/CustomerServiceImpl.java:99-113 | fails iff the id is missing, with nothing saved or cached; otherwise renames, puts `customers/#id`, empties `customer-search` |
| StoreSpec.WithoutCustomer | src/main/java/com/securitease/store/entity/Customer.java:35 | deleting a customer removes it and exactly the orders that reference it |
| StoreSpec.DeleteCustomer | src/main/java/com/example/store/service/impl/CustomerServiceImpl.java:115-128 | fails iff missing, with no delete and no eviction; otherwise cascades and evicts `customers/#id`, all of `customer-search` and `orders-by-customer/#id` |
| StoreSpec.DeleteCustomerCorrected | src/main/java/com/example/store/service/impl/CustomerServiceImpl.java:115-128 | same outcome and database, and the cascaded orders' `orders` entries are evicted too |
| StoreSpec.CreateOrder | src/main/java/com/securitease/store/service/impl/OrderServiceImpl.java:89-108 | fails iff the customer is missing, saving and caching nothing; otherwise saves the order, puts `orders/result.id`, evicts `orders-by-customer/request.customerId` |
| StoreSpec.UpdateOrder | src/main/java/com/securitease/store/service/impl/OrderServiceImpl.java:110-142 | a missing order fails before the customer lookup, a missing customer fails next, neither changes anything; otherwise replaces description and customer, puts `orders/#id`, evicts only the request customer's list |
| StoreSpec.UpdateOrderCorrected | src/main/java/com/securitease/store/service/impl/OrderServiceImpl.java:136-139 | same outcome and database, and on success the old customer's list is evicted as well |
| StoreSpec.DeleteOrder | src/main/java/com/securitease/store/service/impl/OrderServiceImpl.java:144-159 | fails iff missing, with no delete and no eviction; otherwise deletes, evicts `orders/#id` and the order's customer's list |
| StoreSpec.NewProductHasNoOrders | src/main/java/com/securitease/store/service/impl/ProductServiceImpl.java:97-100 | in a valid database no order links the next product id |
| StoreSpec.CreateProduct | src/main/java/com/securitease/store/service/impl/ProductServiceImpl.java:91-104 | saves the description under a fresh id, puts `products/result.id`, empties `product-search` |
| StoreSpec.UpdateProduct | src/main/java/com/securitease/store/service/impl/ProductServiceImpl.java:106-120 | fails iff missing, with no save or cache change; otherwise replaces the description, puts `products/#id`, empties `product-search` |
| StoreSpec.WithoutProduct | src/main/java/com/securitease/store/service/impl/ProductServiceImpl.java:135 | deleting a product removes it and its join rows; orders and customers remain |
| StoreSpec.DeleteProduct | src/main/java/com/securitease/store/service/impl/ProductServiceImpl.java:122-137 | fails iff missing, with no delete and no eviction; otherwise evicts `products/#id` and empties `product-search`; no order namespace is touched |
| StoreSpec.EvictCustomer | src/main/java/com/securitease/store/service/CacheService.java:36-42 | a null id changes nothing; otherwise only `customers/#id` is removed |
| StoreSpec.EvictCustomerOrders | src/main/java/com/securitease/store/service/CacheService.java:49-55 | a null id changes nothing; otherwise only `orders-by-customer/#id` is removed |
| StoreSpec.EvictOrder | src/main/java/com/securitease/store/service/CacheService.java:62-68 | a null id changes nothing; otherwise only `orders/#id` is removed |
| StoreSpec.EvictAllCustomerSearches | src/main/java/com/securitease/store/service/CacheService.java:71-75 | `customer-search` emptied, all else unchanged |
| StoreSpec.EvictAllCaches | src/main/java/com/securitease/store/service/CacheService.java:81-87 | every namespace empty; database and log unchanged |
| StoreSpec.WarmupCache | src/main/java/com/securitease/store/service/CacheService.java:95-100 | the state is unchanged |
| StoreSpec.GetCacheStats | src/main/java/com/securitease/store/service/CacheService.java:108-115 | "is active" when the manager returns a cache, "not found" otherwise; no entry changes |
| Coherence.GetCustomerByIdSound | src/main/java/com/example/store/service/impl/CustomerServiceImpl.java:67-73 | with `customers` fresh, the answer is the repository's, hit or miss, and freshness and coherence are kept |
| Coherence.GetOrderByIdSound | src/main/java/com/securitease/store/service/impl/OrderServiceImpl.java:72-78 | with `orders` fresh, the answer is the repository's and freshness is kept |
| Coherence.GetProductByIdSound | src/main/java/com/securitease/store/service/impl/ProductServiceImpl.java:72-79 | with `products` fresh, the answer is the repository's and freshness is kept |
| Coherence.GetOrdersByCustomerIdSound | src/main/java/com/securitease/store/service/impl/OrderServiceImpl.java:80-87 | with the list cache fresh, the answer is exactly the customer's orders, each naming that customer |
| Coherence.FindCustomersByNameContainingSound | src/main/java/com/example/store/service/impl/CustomerServiceImpl.java:75-82 | a cached search under the lower-cased key is the repository's answer for the query as given |
| Coherence.FindProductsByDescriptionContainingSound | src/main/java/com/securitease/store/service/impl/ProductServiceImpl.java:81-89 | the same for product searches |
| Coherence.SearchesDifferingInCaseShareEntry | src/main/java/com/securitease/store/service/impl/ProductServiceImpl.java:83 | a second query differing only in case is answered from the cache, with the first's result and no repository call |
| Coherence.CreatedCustomerIsCached | src/main/java/com/example/store/service/impl/CustomerServiceImpl.java:85 | a customer just created is then read from the cache without a repository call |
| Coherence.CreateCustomerKeepsCoherent | src/main/java/com/example/store/service/impl/CustomerServiceImpl.java:84-97 | creating a customer keeps every namespace fresh |
| Coherence.UpdateCustomerKeepsCustomersFresh | src/main/java/com/example/store/service/impl/CustomerServiceImpl.java:99-113 | renaming keeps `customers` and `customer-search` fresh |
| Coherence.UpdateCustomerKeepsProductsFresh | src/main/java/com/example/store/service/impl/CustomerServiceImpl.java:99-113 | renaming keeps both product namespaces fresh |
| Coherence.UpdateCustomerLeavesOrderNameStale | src/main/java/com/example/store/service/impl/CustomerServiceImpl.java:99-101 | a cached order of a renamed customer still shows the old name |
| Coherence.DeleteCustomerKeepsFresh | src/main/java/com/example/store/service/impl/CustomerServiceImpl.java:115-128 | deletion keeps `customers`, `customer-search` and `orders-by-customer` fresh |
| Coherence.DeleteCustomerLeavesOrdersCached | src/main/java/com/example/store/service/impl/CustomerServiceImpl.java:115-118 | a cascaded order stays in `orders` and is still served, though the repository no longer has it |
| Coherence.DeleteCustomerLeavesProductOrderIdsStale | src/main/java/com/example/store/service/impl/CustomerServiceImpl.java:115-128 | a cached product that a cascaded order linked keeps that order's id among its `orderIds` |
| Coherence.DeleteCustomerCorrectedKeepsFresh | src/main/java/com/example/store/service/impl/CustomerServiceImpl.java:115-128 | the corrected delete keeps `orders` fresh as well |
| Coherence.CreateOrderKeepsFresh | src/main/java/com/securitease/store/service/impl/OrderServiceImpl.java:89-108 | creating an order keeps `orders`, `orders-by-customer` and both product namespaces fresh |
| Coherence.CreateOrderLeavesCustomerStale | src/main/java/com/securitease/store/service/impl/OrderServiceImpl.java:90-92 | a cached customer misses its newest order, since no customer entry is evicted |
| Coherence.CreateOrderLeavesCustomerSearchStale | src/main/java/com/securitease/store/service/impl/OrderServiceImpl.java:89-108 | a cached search matching the customer keeps the customer without its newest order |
| Coherence.UpdateOrderKeepsFresh | src/main/java/com/securitease/store/service/impl/OrderServiceImpl.java:110-142 | updating an order keeps `orders` and both product namespaces fresh |
| Coherence.UpdateOrderConditionNeverHolds | src/main/java/com/securitease/store/service/impl/OrderServiceImpl.java:115-118 | on success the result's customer is the request's, so only that one list is evicted |
| Coherence.UpdateOrderSameCustomerKeepsLists | src/main/java/com/securitease/store/service/impl/OrderServiceImpl.java:111-119 | an update that keeps the customer keeps `orders-by-customer` fresh |
| Coherence.UpdateOrderLeavesCustomerStale | src/main/java/com/securitease/store/service/impl/OrderServiceImpl.java:110-142 | a cached customer keeps the order's old description after the order is renamed |
| Coherence.UpdateOrderLeavesOldCustomerList | src/main/java/com/securitease/store/service/impl/OrderServiceImpl.java:115-139 | after a move, the old customer's cached list still holds the order the repository no longer lists under it |
| Coherence.UpdateOrderCorrectedKeepsLists | src/main/java/com/securitease/store/service/impl/OrderServiceImpl.java:136-139 | with the old customer's list evicted, `orders-by-customer` stays fresh on every update |
| Coherence.DeleteOrderKeepsFresh | src/main/java/com/securitease/store/service/impl/OrderServiceImpl.java:144-159 | deletion keeps `orders` and `orders-by-customer` fresh |
| Coherence.DeleteOrderLeavesCustomerStale | src/main/java/com/securitease/store/service/impl/OrderServiceImpl.java:144-159 | the deleted order's customer, if cached, keeps listing the order, and `getCustomerById` serves it |
| Coherence.DeleteOrderLeavesProductOrderIdsStale | src/main/java/com/securitease/store/service/impl/OrderServiceImpl.java:144-159 | a cached product the order linked keeps the order's id among its `orderIds` |
| Coherence.DeleteOrderLeavesProductSearchStale | src/main/java/com/securitease/store/service/impl/OrderServiceImpl.java:144-159 | a cached search matching a product the order linked keeps listing the deleted order's id |
| Coherence.ProductWriteKeepsCustomersFresh | src/main/java/com/securitease/store/service/impl/ProductServiceImpl.java:91-137 | a product write that changes no order's description or customer leaves `customers` and `customer-search` fresh |
| Coherence.UnlinkedProductWriteKeepsOrdersFresh | src/main/java/com/securitease/store/service/impl/ProductServiceImpl.java:106-137 | a write to a product that no order links leaves `orders` and `orders-by-customer` fresh |
| Coherence.CreateProductKeepsCoherent | src/main/java/com/securitease/store/service/impl/ProductServiceImpl.java:91-104 | creating a product keeps the whole cache coherent |
| Coherence.UpdateProductKeepsFresh | src/main/java/com/securitease/store/service/impl/ProductServiceImpl.java:106-120 | updating a product, failing or not, keeps every namespace but the two order ones fresh, and all of them when no order links the product |
| Coherence.UpdateProductLeavesOrderSnapshotStale | src/main/java/com/securitease/store/service/impl/ProductServiceImpl.java:106-120 | a cached order linking the product keeps listing its old description, and `getOrderById` serves it |
| Coherence.DeleteProductKeepsFresh | src/main/java/com/securitease/store/service/impl/ProductServiceImpl.java:122-137 | deleting a product, failing or not, keeps every namespace but the two order ones fresh, and all of them when no order linked the product |
| Coherence.DeleteProductLeavesOrderListingIt | src/main/java/com/securitease/store/service/impl/ProductServiceImpl.java:122-137 | a cached order that linked the deleted product keeps listing it, although the repository's order no longer does |
| Coherence.InitialIsCoherent | src/main/java/com/securitease/store/config/CacheConfig.java:86-107 | a started application with empty caches over an empty database is coherent |
| Coherence.ManualEvictionsKeepCoherent | src/main/java/com/securitease/store/service/CacheService.java:36-100 | each manual eviction and the warm-up keep a coherent state coherent |
| Coherence.EvictAllCachesRestoresCoherence | src/main/java/com/securitease/store/service/CacheService.java:81-87 | after clearing all caches the state is coherent with any valid database |
| Coherence.GetCacheStatsKeepsCoherent | src/main/java/com/securitease/store/service/CacheService.java:108-115 | the statistics lookup keeps coherence |
| Coherence.GetCacheStatsReportsEveryNameActive | src/main/java/com/securitease/store/service/CacheService.java:108-115 | with the manager creating missing caches, every name is reported active, even an unconfigured one |
| Coherence.GetCacheStatsCorrected | src/main/java/com/securitease/store/service/CacheService.java:108-115 | with a manager of configured caches only, exactly the six names are active and others are not found |
| CustomerController.NameSearchIffNotBlank | src/main/java/com/securitease/store/controller/CustomerController.java:74 | a search is made iff the name is present and has a character above U+0020 |
| CustomerController.GetAllCustomers | src/main/java/com/securitease/store/controller/CustomerController.java:70-81 | no search: exactly one full-list call; a search: the full list is never requested |
| CustomerController.GetAllCustomersSound | src/main/java/com/securitease/store/controller/CustomerController.java:70-81 | in a coherent state the answer is the trimmed-name search or every customer, and coherence is kept |
| CustomerController.GetCustomersPaged | src/main/java/com/securitease/store/controller/CustomerController.java:96-104 | refused with INVALID_PAGE_SIZE iff size > 100; otherwise the pageable is passed on unchanged |
| CustomerController.PageSizeRuleBehindResolver | src/main/java/com/securitease/store/config/WebConfig.java:32 | behind the configured resolver the refusal never happens; a raw size 101, or Spring's default resolver, reaches it |
| CustomerController.GetCustomerById | src/main/java/com/securitease/store/controller/CustomerController.java:120-125 | an empty service answer becomes the not-found exception for the id; a present one is returned as is |
| CustomerController.GetCustomerByIdSound | src/main/java/com/securitease/store/controller/CustomerController.java:120-125 | in a coherent state it fails iff the customer is missing, with a message containing "Customer" |
| CustomerController.GetCustomerByIdAsConfigured | src/main/java/com/securitease/store/controller/CustomerController.java:120-125 | over the read as configured, the endpoint returns the customer the read returns, and otherwise fails with the cache error |
| CustomerController.GetCustomerByIdNeverNotFound | src/main/java/com/securitease/store/controller/CustomerController.java:120-125 | in a coherent state a missing customer ends in the cache error, never in the not-found exception |
| ProductController.DescriptionSearchIffNotBlank | src/main/java/com/securitease/store/controller/ProductController.java:67 | a search is made iff the description is present and has a character above U+0020 |
| ProductController.GetAllProducts | src/main/java/com/securitease/store/controller/ProductController.java:64-74 | no search: exactly one full-list call; a search: the full list is never requested |
| ProductController.GetAllProductsSound | src/main/java/com/securitease/store/controller/ProductController.java:64-74 | in a coherent state the answer is the trimmed-description search or every product |
| ProductController.GetProductsPaged | src/main/java/com/securitease/store/controller/ProductController.java:82-92 | refused with INVALID_PAGE_SIZE iff size > 100; otherwise passed on unchanged |
| ProductController.PageSizeRuleBehindResolver | src/main/java/com/securitease/store/config/WebConfig.java:32 | behind the configured resolver the refusal never happens; a raw size 101, or Spring's default resolver, reaches it |
| ProductController.GetProductById | src/main/java/com/securitease/store/controller/ProductController.java:101-107 | an empty service answer becomes the not-found exception for the id |
| ProductController.GetProductByIdSound | src/main/java/com/securitease/store/controller/ProductController.java:101-107 | in a coherent state it fails iff the product is missing, with a message containing "Product" |
| ProductController.GetProductByIdAsConfigured | src/main/java/com/securitease/store/controller/ProductController.java:101-107 | over the read as configured, the endpoint returns the product the read returns, and otherwise fails with the cache error |
| ProductController.GetProductByIdNeverNotFound | src/main/java/com/securitease/store/controller/ProductController.java:101-107 | in a coherent state a missing product ends in the cache error, never in the not-found exception |
| WebConfig.ArgumentResolvers.constructor | src/main/java/com/securitease/store/config/WebConfig.java:28 | the list handed to the configuration holds the given resolvers |
| WebConfig.AddArgumentResolvers | src/main/java/com/securitease/store/config/WebConfig.java:27-42 | appends one resolver configured with maximum 100, fallback (0, 20), parameters "page" and "size"; the existing ones stay |
| WebConfig.Resolve | src/main/java/com/securitease/store/config/WebConfig.java:32-35 | a size above the maximum is cut to it, a size within range is kept, a missing or non-positive size falls back; the page lies in [0, IntMax] |
| WebConfig.ConfiguredBounds | src/main/java/com/securitease/store/config/WebConfig.java:24-35 | the configured resolver gives 1..100 items, keeps sizes up to 100, falls back to 20 items on page 0 |
| WebConfig.ResolveIdempotent | src/main/java/com/securitease/store/config/WebConfig.java:32 | resolving an already resolved pageable gives it back |
| WebConfig.OversizedRequestCapped | src/main/java/com/securitease/store/config/WebConfig.java:24-35 | (0, 101) resolves to (0, 100), nothing to (0, 20); Spring's default resolver keeps 101 |
| Services.Store.constructor | src/main/java/com/securitease/store/config/CacheConfig.java:86-107 | a started store is the initial state, and coherent |
| Services.Store.GetCustomerById | src/main/java/com/example/store/service/impl/CustomerServiceImpl.java:67-73 | makes exactly the `StoreSpec.GetCustomerById` transition; from a coherent state it returns the repository's answer and stays coherent |
| Services.Store.GetOrderById | src/main/java/com/securitease/store/service/impl/OrderServiceImpl.java:72-78 | the `StoreSpec.GetOrderById` transition; the repository's answer when coherent |
| Services.Store.GetProductById | src/main/java/com/securitease/store/service/impl/ProductServiceImpl.java:72-79 | the `StoreSpec.GetProductById` transition; the repository's answer when coherent |
| Services.Store.GetOrdersByCustomerId | src/main/java/com/securitease/store/service/impl/OrderServiceImpl.java:80-87 | the `StoreSpec.GetOrdersByCustomerId` transition; the customer's orders when coherent |
| Services.Store.FindCustomersByNameContaining | src/main/java/com/example/store/service/impl/CustomerServiceImpl.java:75-82 | the `StoreSpec.FindCustomersByNameContaining` transition; the search's answer when coherent |
| Services.Store.FindProductsByDescriptionContaining | src/main/java/com/securitease/store/service/impl/ProductServiceImpl.java:81-89 | the `StoreSpec.FindProductsByDescriptionContaining` transition; the search's answer when coherent |
| Services.Store.GetAllCustomers | src/main/java/com/example/store/service/impl/CustomerServiceImpl.java:51-57 | the `StoreSpec.GetAllCustomers` transition; coherence kept |
| Services.Store.GetAllProducts | src/main/java/com/securitease/store/service/impl/ProductServiceImpl.java:54-61 | the `StoreSpec.GetAllProducts` transition; coherence kept |
| Services.Store.CreateCustomer | src/main/java/com/example/store/service/impl/CustomerServiceImpl.java:84-97 | the `StoreSpec.CreateCustomer` transition; coherence kept |
| Services.Store.UpdateCustomer | src/main/java/com/example/store/service/impl/CustomerServiceImpl.java:99-113 | the `StoreSpec.UpdateCustomer` transition, with the loaded customer renamed in place |
| Services.Store.DeleteCustomer | src/main/java/com/example/store/service/impl/CustomerServiceImpl.java:115-128 | the `StoreSpec.DeleteCustomer` transition |
| Services.Store.CreateOrder | src/main/java/com/securitease/store/service/impl/OrderServiceImpl.java:89-108 | the `StoreSpec.CreateOrder` transition |
| Services.Store.UpdateOrder | src/main/java/com/securitease/store/service/impl/OrderServiceImpl.java:110-142 | the `StoreSpec.UpdateOrder` transition, with the loaded order changed in place |
| Services.Store.DeleteOrder | src/main/java/com/securitease/store/service/impl/OrderServiceImpl.java:144-159 | the `StoreSpec.DeleteOrder` transition, evicting through `EvictCustomerOrders` |
| Services.Store.CreateProduct | src/main/java/com/securitease/store/service/impl/ProductServiceImpl.java:91-104 | the `StoreSpec.CreateProduct` transition; coherence kept |
| Services.Store.UpdateProduct | src/main/java/com/securitease/store/service/impl/ProductServiceImpl.java:106-120 | the `StoreSpec.UpdateProduct` transition; from a coherent state every namespace but the two order ones stays fresh, and all of them when no order links the product |
| Services.Store.DeleteProduct | src/main/java/com/securitease/store/service/impl/ProductServiceImpl.java:122-137 | the `StoreSpec.DeleteProduct` transition; from a coherent state every namespace but the two order ones stays fresh, and all of them when no order linked the product |
| Services.Store.EvictCustomer | src/main/java/com/securitease/store/service/CacheService.java:36-42 | the `StoreSpec.EvictCustomer` transition; coherence kept |
| Services.Store.EvictCustomerOrders | src/main/java/com/securitease/store/service/CacheService.java:49-55 | the `StoreSpec.EvictCustomerOrders` transition; coherence kept |
| Services.Store.EvictOrder | src/main/java/com/securitease/store/service/CacheService.java:62-68 | the `StoreSpec.EvictOrder` transition; coherence kept |
| Services.Store.EvictAllCustomerSearches | src/main/java/com/securitease/store/service/CacheService.java:71-75 | the `StoreSpec.EvictAllCustomerSearches` transition; coherence kept |
| Services.Store.EvictAllCaches | src/main/java/com/securitease/store/service/CacheService.java:81-87 | clearing the namespaces one by one in a loop is the `StoreSpec.EvictAllCaches` transition; afterwards coherent over any valid database |
| Services.Store.WarmupCache | src/main/java/com/securitease/store/service/CacheService.java:95-100 | the new state is the StoreSpec transition of the old one, which changes nothing; coherence is kept by Coherence.ManualEvictionsKeepCoherent |
| Services.Store.GetCacheStats | src/main/java/com/securitease/store/service/CacheService.java:108-115 | the `StoreSpec.GetCacheStats` transition and message; coherence kept |

## Left out

- Redis itself is not modelled: serializers, the object mapper and the `RedisTemplate` bean. Only the names, TTL table and no-null rule remain.
- CustomerController.GetCustomerByIdSound and ProductController.GetProductByIdSound describe the by-id endpoints over the read-through that returns an empty answer unstored. As configured, that answer ends in the cache's null-value error first (see "Findings"), so their not-found branch is the evidently intended behaviour, not the one the configuration gives.
- Text.Lower: folds the ASCII letters A–Z only. Java's `toLowerCase` also folds other letters (É to é), depends on the default locale (the Turkish dotless i) and can change the length (U+0130). The search keys are lower-cased in Java and the database compares case-insensitively in SQL; the model assumes the two foldings agree.
- Repository.SearchDependsOnLowerCase: holds for the ASCII folding of `Text.Lower`, on both the cache key and the repository's comparison. With Java's full folding on the key and the database's own on the query, two queries with one key could get different answers; that is not modelled.
- Services.Store.UpdateProduct: does not keep the whole cache coherent, because cached orders and order lists embed the product's description and are not evicted (`Coherence.UpdateProductLeavesOrderSnapshotStale`). Coherence is promised only when no order links the product.
- Services.Store.DeleteProduct: does not keep the whole cache coherent, because cached orders and order lists still list the deleted product (`Coherence.DeleteProductLeavesOrderListingIt`). Coherence is promised only when no order linked it.
- Time-to-live expiry needs a clock. The TTLs are constants, and entries never expire in the model.
- Transactions and concurrent callers are not modelled: calls run one at a time and each completes.
- Logging is not modelled, and `warmupCache` only logs, so it is the identity.
- The paged service calls `getCustomers(pageable)` and `getProducts(pageable)` sit behind the controllers' page-size rule. Page contents are not modelled; the controllers return the pageable they would pass on.
- `getAllOrders` and `getOrders` are not cached and lie outside the cache state machine.
- The generated MapStruct mappers are modelled as functions from database rows to DTOs (`Repository.CustomerDtoOf`, `OrderDtoOf`, `ProductDtoOf`).
- Unordered result lists (`findAll`, `findByCustomerId`, the searches, a customer's or a product's orders) are modelled as sets, so their order is not modelled. `ProductMapper.MapOrdersToIds` keeps order on the entity lists.
- The JPA setters on a loaded entity are modelled as updates to the row in the map. Object identity and aliasing between entities are not modelled.
- The three services and the cache manager are one object (`Services.Store`), because they share one cache manager and one database.
- Caches the manager creates on demand never hold entries. Clearing them is therefore a no-op, and `evictAllCaches` clears the six configured namespaces.
- WebConfig.Resolve: Spring's shortcut of returning the fallback when both parameters are absent gives the same pageable, so it is not a separate branch. A parameter that does not parse, including a number outside the `int` range, counts as absent; the caller passes it as `None`.
- WebConfig.AddArgumentResolvers: the resolver is a value, not a Java object, so later changes through the appended reference are not modelled.
- Entities.LongHashCode: takes ids in the Java `long` range as a precondition. The services' integer ids are unbounded, which is the `long` range without overflow.
- The HTTP layer, security and OpenAPI configuration and the exception handler's responses are not modelled, and neither is the admin cache controller.

## Findings

| source | as written | input that shows it | evidently intended | confidence | as-written member | corrected member |
|---|---|---|---|---|---|---|
| src/main/java/com/securitease/store/service/impl/OrderServiceImpl.java:115-118 | the second eviction's condition compares the request's customer with the result's, which is the same customer after the save, so it never fires | order 1 of customer 1 with customer 1's list cached; `updateOrder(1, {customerId: 2})`; then `getOrdersByCustomerId(1)` still returns order 1 | evict the old customer's `orders-by-customer` entry when the customer changes | not executed | Coherence.UpdateOrderLeavesOldCustomerList | Coherence.UpdateOrderCorrectedKeepsLists |
| src/main/java/com/example/store/service/impl/CustomerServiceImpl.java:115-118 | deleting a customer cascades to its orders, but no `orders` entry is evicted | order 1 of customer 1 cached under `orders/1`; `deleteCustomer(1)`; then `getOrderById(1)` still returns the order | evict the cascaded orders' entries too; but src/test/java/com/securitease/store/integration/OrderCustomerWorkflowIntegrationTest.java:200-206 expects `GET /orders/{id}` to answer 200 after the delete (with the simple cache it passes only through this stale entry), so the intent is contested | not executed; low: the integration test relies on the as-written behaviour | Coherence.DeleteCustomerLeavesOrdersCached | Coherence.DeleteCustomerCorrectedKeepsFresh |
| src/main/java/com/securitease/store/service/CacheService.java:109-114 | the Redis cache manager keeps its default of creating missing caches, so `getCache` never returns null and "not found" is never produced | `getCacheStats("no-such-cache")` returns "Cache no-such-cache is active" | report names that are not configured as not found | not executed | Coherence.GetCacheStatsReportsEveryNameActive | Coherence.GetCacheStatsCorrected |
| src/main/java/com/example/store/service/impl/CustomerServiceImpl.java:69 | `@Cacheable` has no `unless = "#result == null"` while the cache configuration disables null values (src/main/java/com/securitease/store/config/CacheConfig.java:78), so an empty `Optional` is put as null and the cache throws `IllegalArgumentException`; the controller's `orElseThrow` is never reached and the catch-all handler answers 500 | `GET /customers/99` with no customer 99: the cache error, not the 404 `ResourceNotFoundException` | return the empty result unstored, so the controller answers 404 | not executed | CustomerController.GetCustomerByIdNeverNotFound | CustomerController.GetCustomerByIdSound |
| src/main/java/com/securitease/store/service/impl/ProductServiceImpl.java:74 | the same missing `unless` on `getProductById` | `GET /products/99` with no product 99: the cache error, not the 404 | return the empty result unstored | not executed | ProductController.GetProductByIdNeverNotFound | ProductController.GetProductByIdSound |
| src/main/java/com/securitease/store/entity/Order.java:40-53 | `@Builder.Default` moves the `products` initializer into the builder, so the hand-written two-argument constructor leaves `products` null | `new Order("desc", customer).getProducts()` is null | start with an empty product list, as the field declaration says | not executed | Entities.NewOrderLeavesProductsNull | Entities.NewOrderCorrected |
