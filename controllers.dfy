/** The customer REST controller: the list endpoint chooses between a name
    search and the full list, the paged endpoint refuses pages of more than 100
    items, and a missing customer becomes a `ResourceNotFoundException`. */
module CustomerController {
  import opened Wrappers
  import opened Dto
  import opened Repository
  import opened Exceptions
  import opened StoreSpec
  import opened WebConfig
  import Coherence
  import CacheConfig
  import Text

  /** The `name` parameter asks for a search: present, and not blank once trimmed. */
  predicate IsNameSearch(name: Option<string>) {
    name.Some? && Text.Trim(name.value) != []
  }

  /** A name asks for a search exactly when it has a character above U+0020;
      a missing name, an empty one or one of spaces and control characters does not. */
  lemma NameSearchIffNotBlank(name: Option<string>)
    ensures IsNameSearch(name) <==> name.Some? && exists k :: 0 <= k < |name.value| && !Text.IsTrimmable(name.value[k])
  {
    if name.Some? {
      Text.TrimEmptyIffBlank(name.value);
    }
  }

  /** `GET /customers`: a search for the trimmed name, or every customer. A
      blank name (only characters up to U+0020) lists everyone and makes no
      search; a real name never lists everyone. */
  function GetAllCustomers(s: State, name: Option<string>): (r: Step<set<CustomerDto>>)
    ensures r.next.db == s.db
    ensures !IsNameSearch(name) ==> r.next == s.(log := s.log + [FindAll(CustomerTable)])
    ensures IsNameSearch(name) ==> |s.log| <= |r.next.log| && FindAll(CustomerTable) !in r.next.log[|s.log|..]
  {
    if IsNameSearch(name) then
      var r := FindCustomersByNameContaining(s, Text.Trim(name.value));
      assert r.next.log[|s.log|..] == [] || r.next.log[|s.log|..] == [FindByNameContaining(Text.Trim(name.value))];
      r
    else StoreSpec.GetAllCustomers(s)
  }

  /** In a coherent state the list endpoint answers what the repository holds:
      every customer, or those whose name contains the trimmed query ignoring
      case; and the state stays coherent. */
  lemma GetAllCustomersSound(s: State, name: Option<string>)
    requires Coherence.Coherent(s)
    ensures var r := GetAllCustomers(s, name);
            && Coherence.Coherent(r.next)
            && (IsNameSearch(name) ==> r.out == FindCustomersByName(s.db, Text.Trim(name.value)))
            && (!IsNameSearch(name) ==> r.out == FindAllCustomers(s.db))
            && r.out <= FindAllCustomers(s.db)
  {
    if IsNameSearch(name) {
      Coherence.FindCustomersByNameContainingSound(s, Text.Trim(name.value));
    } else {
      Coherence.LogOnlyKeepsCoherent(s, GetAllCustomers(s, name).next);
    }
  }

  /** `GET /customers/paged`: a page of more than 100 items is refused with
      `INVALID_PAGE_SIZE`; any other pageable is passed on unchanged to the
      service. */
  function GetCustomersPaged(pageable: Pageable): (r: Result<Pageable, BusinessRuleViolationException>)
    ensures r.Failure? <==> pageable.size > MaxPageSize
    ensures r.Failure? ==> r.error.errorCode == "INVALID_PAGE_SIZE"
    ensures r.Success? ==> r.value == pageable
  {
    if pageable.size > 100 then Failure(InvalidPageSize()) else Success(pageable)
  }

  /** Behind the configured resolver the refusal cannot happen: the resolver
      has already cut every size down to 100. A pageable that bypasses it, or a
      resolver with Spring's default maximum, reaches the refusal with size 101. */
  lemma PageSizeRuleBehindResolver(page: Option<int>, size: Option<int>)
    ensures GetCustomersPaged(ResolvePageable(page, size)).Success?
    ensures GetCustomersPaged(Pageable(0, 101)) == Failure(InvalidPageSize())
    ensures GetCustomersPaged(Resolve(SpringDefault, Some(0), Some(101))).Failure?
  {
    OversizedRequestCapped();
  }

  /** `GET /customers/{id}`: the service's empty answer becomes the not-found
      exception for this id; a present answer is returned as it is. */
  function GetCustomerById(s: State, id: int): (r: Step<Result<CustomerDto, ResourceNotFoundException>>)
    ensures var served := StoreSpec.GetCustomerById(s, id);
            && r.next == served.next
            && (served.out.Some? ==> r.out == Success(served.out.value))
            && (served.out.None? ==> r.out == Failure(NotFoundById("Customer", id)))
  {
    var served := StoreSpec.GetCustomerById(s, id);
    match served.out
    case Some(customer) => Step(served.next, Success(customer))
    case None => Step(served.next, Failure(NotFoundById("Customer", id)))
  }

  /** In a coherent state the endpoint fails exactly for an id the repository
      does not have, with a message naming the customer resource and the id. */
  lemma GetCustomerByIdSound(s: State, id: int)
    requires Coherence.Coherent(s)
    ensures var r := GetCustomerById(s, id);
            && Coherence.Coherent(r.next)
            && (r.out.Failure? <==> id !in s.db.customers)
            && (r.out.Success? ==> r.out.value == CustomerDtoOf(s.db, id))
            && (r.out.Failure? ==> Text.Contains(r.out.error.message, "Customer"))
  {
    Coherence.GetCustomerByIdSound(s, id);
    NotFoundByIdNamesResource("Customer", id);
  }
  /** FINDING (as written). `GET /customers/{id}` over the read as configured:
      an empty answer would become the not-found exception, but a miss on a
      missing id ends in the cache's null-value error first. */
  function GetCustomerByIdAsConfigured(s: State, id: int): (r: Step<Result<CustomerDto, EndpointError>>)
    ensures var served := StoringNull(StoreSpec.GetCustomerById(s, id), CacheConfig.Customers);
            && r.next == served.next
            && (r.out.Success? <==> served.out.Success?)
            && (r.out.Success? ==> Some(r.out.value) == served.out.value)
            && (r.out.Failure? ==> r.out.error == Unexpected(NullValueRejected("customers")))
  {
    var served := StoringNull(StoreSpec.GetCustomerById(s, id), CacheConfig.Customers);
    match served.out
    case Success(Some(customer)) => Step(served.next, Success(customer))
    case Success(None) => Step(served.next, Failure(NotFoundError(NotFoundById("Customer", id))))
    case Failure(e) => Step(served.next, Failure(Unexpected(e)))
  }

  /** The `orElseThrow` branch is dead as configured: in a coherent state the
      endpoint fails exactly for a missing id, always with the cache error and
      never with the not-found exception `GetCustomerByIdSound` describes. */
  lemma GetCustomerByIdNeverNotFound(s: State, id: int)
    requires Coherence.Coherent(s)
    ensures var r := GetCustomerByIdAsConfigured(s, id);
            && (r.out.Failure? <==> id !in s.db.customers)
            && (r.out.Failure? ==> !r.out.error.NotFoundError? && GetCustomerById(s, id).out.Failure?)
  {
    Coherence.GetCustomerByIdSound(s, id);
  }
}

/** The product REST controller: the same dispatch on a `description`
    parameter, the same page-size rule and the same not-found conversion. */
module ProductController {
  import opened Wrappers
  import opened Dto
  import opened Repository
  import opened Exceptions
  import opened StoreSpec
  import opened WebConfig
  import Coherence
  import CacheConfig
  import Text

  predicate IsDescriptionSearch(description: Option<string>) {
    description.Some? && Text.Trim(description.value) != []
  }

  lemma DescriptionSearchIffNotBlank(description: Option<string>)
    ensures IsDescriptionSearch(description) <==>
              description.Some? && exists k :: 0 <= k < |description.value| && !Text.IsTrimmable(description.value[k])
  {
    if description.Some? {
      Text.TrimEmptyIffBlank(description.value);
    }
  }

  /** `GET /products`: a search for the trimmed description, or every product. */
  function GetAllProducts(s: State, description: Option<string>): (r: Step<set<ProductDto>>)
    ensures r.next.db == s.db
    ensures !IsDescriptionSearch(description) ==> r.next == s.(log := s.log + [FindAll(ProductTable)])
    ensures IsDescriptionSearch(description) ==> |s.log| <= |r.next.log| && FindAll(ProductTable) !in r.next.log[|s.log|..]
  {
    if IsDescriptionSearch(description) then
      var r := FindProductsByDescriptionContaining(s, Text.Trim(description.value));
      assert r.next.log[|s.log|..] == [] || r.next.log[|s.log|..] == [FindByDescriptionContaining(Text.Trim(description.value))];
      r
    else StoreSpec.GetAllProducts(s)
  }

  lemma GetAllProductsSound(s: State, description: Option<string>)
    requires Coherence.Coherent(s)
    ensures var r := GetAllProducts(s, description);
            && Coherence.Coherent(r.next)
            && (IsDescriptionSearch(description) ==> r.out == FindProductsByDescription(s.db, Text.Trim(description.value)))
            && (!IsDescriptionSearch(description) ==> r.out == FindAllProducts(s.db))
            && r.out <= FindAllProducts(s.db)
  {
    if IsDescriptionSearch(description) {
      Coherence.FindProductsByDescriptionContainingSound(s, Text.Trim(description.value));
    } else {
      Coherence.LogOnlyKeepsCoherent(s, GetAllProducts(s, description).next);
    }
  }

  /** `GET /products/paged`. */
  function GetProductsPaged(pageable: Pageable): (r: Result<Pageable, BusinessRuleViolationException>)
    ensures r.Failure? <==> pageable.size > MaxPageSize
    ensures r.Failure? ==> r.error.errorCode == "INVALID_PAGE_SIZE"
    ensures r.Success? ==> r.value == pageable
  {
    if pageable.size > 100 then Failure(InvalidPageSize()) else Success(pageable)
  }

  lemma PageSizeRuleBehindResolver(page: Option<int>, size: Option<int>)
    ensures GetProductsPaged(ResolvePageable(page, size)).Success?
    ensures GetProductsPaged(Pageable(0, 101)) == Failure(InvalidPageSize())
    ensures GetProductsPaged(Resolve(SpringDefault, Some(0), Some(101))).Failure?
  {
    OversizedRequestCapped();
  }

  /** `GET /products/{id}`. */
  function GetProductById(s: State, id: int): (r: Step<Result<ProductDto, ResourceNotFoundException>>)
    ensures var served := StoreSpec.GetProductById(s, id);
            && r.next == served.next
            && (served.out.Some? ==> r.out == Success(served.out.value))
            && (served.out.None? ==> r.out == Failure(NotFoundById("Product", id)))
  {
    var served := StoreSpec.GetProductById(s, id);
    match served.out
    case Some(product) => Step(served.next, Success(product))
    case None => Step(served.next, Failure(NotFoundById("Product", id)))
  }

  lemma GetProductByIdSound(s: State, id: int)
    requires Coherence.Coherent(s)
    ensures var r := GetProductById(s, id);
            && Coherence.Coherent(r.next)
            && (r.out.Failure? <==> id !in s.db.products)
            && (r.out.Success? ==> r.out.value == ProductDtoOf(s.db, id))
            && (r.out.Failure? ==> Text.Contains(r.out.error.message, "Product"))
  {
    Coherence.GetProductByIdSound(s, id);
    NotFoundByIdNamesResource("Product", id);
  }

  /** FINDING (as written). `GET /products/{id}` over the read as configured. */
  function GetProductByIdAsConfigured(s: State, id: int): (r: Step<Result<ProductDto, EndpointError>>)
    ensures var served := StoringNull(StoreSpec.GetProductById(s, id), CacheConfig.Products);
            && r.next == served.next
            && (r.out.Success? <==> served.out.Success?)
            && (r.out.Success? ==> Some(r.out.value) == served.out.value)
            && (r.out.Failure? ==> r.out.error == Unexpected(NullValueRejected("products")))
  {
    var served := StoringNull(StoreSpec.GetProductById(s, id), CacheConfig.Products);
    match served.out
    case Success(Some(product)) => Step(served.next, Success(product))
    case Success(None) => Step(served.next, Failure(NotFoundError(NotFoundById("Product", id))))
    case Failure(e) => Step(served.next, Failure(Unexpected(e)))
  }

  /** As configured, a missing product ends in the cache error, never in the
      not-found exception `GetProductByIdSound` describes. */
  lemma GetProductByIdNeverNotFound(s: State, id: int)
    requires Coherence.Coherent(s)
    ensures var r := GetProductByIdAsConfigured(s, id);
            && (r.out.Failure? <==> id !in s.db.products)
            && (r.out.Failure? ==> !r.out.error.NotFoundError? && GetProductById(s, id).out.Failure?)
  {
    Coherence.GetProductByIdSound(s, id);
  }
}
