/** The database behind the three repositories: one table per entity, keyed by
    generated id, and what each repository query returns, already mapped to DTOs. */
module Repository {
  import opened Wrappers
  import opened Dto
  import Text

  datatype CustomerRow = CustomerRow(name: string)

  /** An order row with its foreign key and its `order_product` join rows. */
  datatype OrderRow = OrderRow(description: string, customerId: int, productIds: set<int>)

  datatype ProductRow = ProductRow(description: string)

  /** The tables and the next identity value of each. */
  datatype Db = Db(customers: map<int, CustomerRow>, orders: map<int, OrderRow>, products: map<int, ProductRow>,
                   nextCustomerId: int, nextOrderId: int, nextProductId: int)

  /** What the schema guarantees: every id lies below its table's next identity
      value, every order references an existing customer, and every join row an
      existing product. */
  predicate ValidDb(db: Db) {
    && (forall id :: id in db.customers ==> id < db.nextCustomerId)
    && (forall id :: id in db.orders ==> id < db.nextOrderId)
    && (forall id :: id in db.products ==> id < db.nextProductId)
    && (forall id :: id in db.orders ==> db.orders[id].customerId in db.customers)
    && (forall id :: id in db.orders ==> db.orders[id].productIds <= db.products.Keys)
  }

  const EmptyDb: Db := Db(map[], map[], map[], 1, 1, 1)

  lemma EmptyDbValid()
    ensures ValidDb(EmptyDb)
  {
  }

  datatype Table = CustomerTable | OrderTable | ProductTable

  /** A call the services make on a repository. */
  datatype RepoCall =
    | FindById(table: Table, id: int)
    | ExistsById(table: Table, id: int)
    | Save(table: Table, id: int)
    | DeleteById(table: Table, id: int)
    | FindAll(table: Table)
    | FindByCustomerId(customerId: int)
    | FindByNameContaining(nameQuery: string)
    | FindByDescriptionContaining(descriptionQuery: string)

  // ---------------------------------------------------------------- mapping rows to DTOs

  /** The name of the customer an order references ("" only for a dangling
      reference, which `ValidDb` rules out). */
  function CustomerName(db: Db, customerId: int): string {
    if customerId in db.customers then db.customers[customerId].name else ""
  }

  function CustomerDtoOf(db: Db, id: int): CustomerDto
    requires id in db.customers
  {
    CustomerDto(id, db.customers[id].name,
                set o | o in db.orders && db.orders[o].customerId == id :: CustomerOrderDto(o, db.orders[o].description))
  }

  /** The products an order links through its join rows, as listed inside the order. */
  function OrderProductsOf(products: map<int, ProductRow>, productIds: set<int>): set<OrderProductDto> {
    set p | p in productIds && p in products :: OrderProductDto(p, products[p].description)
  }

  function OrderDtoOf(db: Db, id: int): OrderDto
    requires id in db.orders
  {
    var row := db.orders[id];
    OrderDto(id, row.description, OrderCustomerDto(row.customerId, CustomerName(db, row.customerId)),
             OrderProductsOf(db.products, row.productIds))
  }

  function ProductDtoOf(db: Db, id: int): ProductDto
    requires id in db.products
  {
    ProductDto(id, db.products[id].description, set o | o in db.orders && id in db.orders[o].productIds)
  }

  // ---------------------------------------------------------------- queries

  /** `findById(id).map(mapper)`. */
  function FindCustomer(db: Db, id: int): (r: Option<CustomerDto>)
    ensures r.Some? <==> id in db.customers
  {
    if id in db.customers then Some(CustomerDtoOf(db, id)) else None
  }

  function FindOrder(db: Db, id: int): (r: Option<OrderDto>)
    ensures r.Some? <==> id in db.orders
  {
    if id in db.orders then Some(OrderDtoOf(db, id)) else None
  }

  function FindProduct(db: Db, id: int): (r: Option<ProductDto>)
    ensures r.Some? <==> id in db.products
  {
    if id in db.products then Some(ProductDtoOf(db, id)) else None
  }

  /** `findByCustomerId(customerId)`, mapped. */
  function FindOrdersByCustomerId(db: Db, customerId: int): set<OrderDto> {
    set o | o in db.orders && db.orders[o].customerId == customerId :: OrderDtoOf(db, o)
  }

  /** `ContainingIgnoreCase`: `query` occurs in `text` once both are lower-cased. */
  predicate MatchesIgnoreCase(text: string, query: string) {
    Text.Contains(Text.Lower(text), Text.Lower(query))
  }

  /** `findByNameContainingIgnoreCase(query)`, mapped. */
  function FindCustomersByName(db: Db, query: string): set<CustomerDto> {
    set id | id in db.customers && MatchesIgnoreCase(db.customers[id].name, query) :: CustomerDtoOf(db, id)
  }

  /** `findByDescriptionContainingIgnoreCase(query)`, mapped. */
  function FindProductsByDescription(db: Db, query: string): set<ProductDto> {
    set id | id in db.products && MatchesIgnoreCase(db.products[id].description, query) :: ProductDtoOf(db, id)
  }

  function FindAllCustomers(db: Db): set<CustomerDto> {
    set id | id in db.customers :: CustomerDtoOf(db, id)
  }

  function FindAllProducts(db: Db): set<ProductDto> {
    set id | id in db.products :: ProductDtoOf(db, id)
  }

  /** The orders of a customer are exactly the saved orders whose customer is
      that customer, so every one of them reports that customer's id. */
  lemma OrdersByCustomerIdExact(db: Db, customerId: int, d: OrderDto)
    ensures d in FindOrdersByCustomerId(db, customerId) <==>
            d.id in db.orders && db.orders[d.id].customerId == customerId && d == OrderDtoOf(db, d.id)
    ensures d in FindOrdersByCustomerId(db, customerId) ==> d.customer.id == customerId
  {
    if d.id in db.orders && db.orders[d.id].customerId == customerId && d == OrderDtoOf(db, d.id) {
      assert d in FindOrdersByCustomerId(db, customerId);
    }
  }

  /** A customer DTO lists exactly the orders that reference the customer. */
  lemma CustomerDtoListsItsOrders(db: Db, id: int, o: int)
    requires id in db.customers
    ensures (exists d :: d in CustomerDtoOf(db, id).orders && d.id == o) <==> o in db.orders && db.orders[o].customerId == id
  {
    if o in db.orders && db.orders[o].customerId == id {
      assert CustomerOrderDto(o, db.orders[o].description) in CustomerDtoOf(db, id).orders;
    }
  }

  /** The case-insensitive queries depend on the query only through its lower-cased
      form, which is why a search can be cached under `query.toLowerCase()`. */
  lemma SearchDependsOnLowerCase(db: Db, q1: string, q2: string)
    requires Text.Lower(q1) == Text.Lower(q2)
    ensures FindCustomersByName(db, q1) == FindCustomersByName(db, q2)
    ensures FindProductsByDescription(db, q1) == FindProductsByDescription(db, q2)
    ensures FindCustomersByName(db, q1) == FindCustomersByName(db, Text.Lower(q1))
    ensures FindProductsByDescription(db, q1) == FindProductsByDescription(db, Text.Lower(q1))
  {
    Text.LowerIdempotent(q1);
  }
}
