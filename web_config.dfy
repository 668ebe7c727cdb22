/** The pageable argument resolver the web configuration registers: requested
    page sizes are clamped to 100, and a request without paging parameters gets
    page 0 of size 20. The clamping itself is the behaviour of Spring's
    `PageableHandlerMethodArgumentResolver`, written out here. */
module WebConfig {
  import opened Wrappers

  const MaxPageSize: int := 100
  const DefaultPageSize: int := 20

  /** `Integer.MAX_VALUE`, the upper bound the resolver puts on a page number. */
  const IntMax: int := 0x7fff_ffff

  /** A page request: zero-based page number and page size. */
  datatype Pageable = Pageable(page: int, size: int)

  /** The resolver's settings. */
  datatype PageableResolver = PageableResolver(maxPageSize: int, fallback: Pageable, pageParameterName: string, sizeParameterName: string)

  /** A resolver as Spring constructs it: at most 2000 items a page, page 0 of
      size 20 when nothing is requested. */
  const SpringDefault: PageableResolver := PageableResolver(2000, Pageable(0, 20), "page", "size")

  /** The resolver as `addArgumentResolvers` configures it. */
  const Configured: PageableResolver := PageableResolver(MaxPageSize, Pageable(0, DefaultPageSize), "page", "size")

  /** The list of argument resolvers Spring MVC hands to `addArgumentResolvers`. */
  class ArgumentResolvers {
    var resolvers: seq<PageableResolver>

    constructor (resolvers: seq<PageableResolver>)
      ensures this.resolvers == resolvers
    {
      this.resolvers := resolvers;
    }
  }

  /** `addArgumentResolvers`: a new resolver is configured setter by setter and
      appended; the resolvers already in the list stay as they are. */
  method AddArgumentResolvers(list: ArgumentResolvers)
    modifies list
    ensures list.resolvers == old(list.resolvers) + [Configured]
  {
    var pageableResolver := SpringDefault;
    pageableResolver := pageableResolver.(maxPageSize := MaxPageSize);
    pageableResolver := pageableResolver.(fallback := Pageable(0, DefaultPageSize));
    pageableResolver := pageableResolver.(pageParameterName := "page");
    pageableResolver := pageableResolver.(sizeParameterName := "size");
    list.resolvers := list.resolvers + [pageableResolver];
  }

  /** A parsed parameter value pulled into `[0, upper]`. */
  function Bounded(v: int, upper: int): int {
    if v < 0 then 0 else if v > upper then upper else v
  }

  /** Settings under which the resolver's result is always a valid page: a
      positive maximum and a fallback within it. */
  predicate WellFormed(resolver: PageableResolver) {
    1 <= resolver.fallback.size <= resolver.maxPageSize && 0 <= resolver.fallback.page <= IntMax
  }

  /** The pageable a resolver produces from the `page` and `size` request
      parameters. `None` stands for a parameter that is absent or that
      `Integer.parseInt` refuses, which Spring treats alike: text that is not
      a number, and a number outside the `int` range such as 3000000000, are
      passed as `None` (they fall back), so a `Some` value is an `int`. A size
      below 1 falls back, a size above the maximum is cut down to it, a page
      number is kept within `[0, IntMax]`. */
  function Resolve(resolver: PageableResolver, page: Option<int>, size: Option<int>): (p: Pageable)
    requires WellFormed(resolver)
    ensures 0 <= p.page <= IntMax && 1 <= p.size <= resolver.maxPageSize
    ensures size.Some? && size.value > resolver.maxPageSize ==> p.size == resolver.maxPageSize
    ensures size.Some? && 1 <= size.value <= resolver.maxPageSize ==> p.size == size.value
    ensures size.None? || size.value < 1 ==> p.size == resolver.fallback.size
    ensures page.Some? && 0 <= page.value <= IntMax ==> p.page == page.value
    ensures page.Some? && page.value < 0 ==> p.page == 0
    ensures page.None? ==> p.page == resolver.fallback.page
  {
    var fallback := resolver.fallback;
    var pageNumber := if page.None? then fallback.page else Bounded(page.value, IntMax);
    var requested := if size.None? then fallback.size else Bounded(size.value, resolver.maxPageSize);
    var atLeastOne := if requested < 1 then fallback.size else requested;
    var pageSize := if atLeastOne > resolver.maxPageSize then resolver.maxPageSize else atLeastOne;
    Pageable(pageNumber, pageSize)
  }

  /** The pageable the configured resolver produces. */
  function ResolvePageable(page: Option<int>, size: Option<int>): Pageable {
    Resolve(Configured, page, size)
  }

  /** The configured resolver never yields more than 100 items a page, keeps a
      size it allows, and falls back to 20 items on page 0. */
  lemma ConfiguredBounds(page: Option<int>, size: Option<int>)
    ensures var p := ResolvePageable(page, size);
            && 0 <= p.page && 1 <= p.size <= MaxPageSize
            && (size.Some? && size.value > MaxPageSize ==> p.size == MaxPageSize)
            && (size.Some? && 1 <= size.value <= MaxPageSize ==> p.size == size.value)
            && (size.None? || size.value < 1 ==> p.size == DefaultPageSize)
            && (page.None? || page.value < 0 ==> p.page == 0)
  {
  }

  /** Clamping is idempotent: resolving the parameters of a resolved pageable gives it back. */
  lemma ResolveIdempotent(resolver: PageableResolver, page: Option<int>, size: Option<int>)
    requires WellFormed(resolver)
    ensures var p := Resolve(resolver, page, size);
            Resolve(resolver, Some(p.page), Some(p.size)) == p
  {
  }

  /** The request the integration test makes: page 0, size 101 resolves to
      size 100 with the configured resolver, but passes unchanged through
      Spring's default one. */
  lemma OversizedRequestCapped()
    ensures ResolvePageable(Some(0), Some(101)) == Pageable(0, 100)
    ensures ResolvePageable(None, None) == Pageable(0, 20)
    ensures Resolve(SpringDefault, Some(0), Some(101)) == Pageable(0, 101)
  {
  }
}
