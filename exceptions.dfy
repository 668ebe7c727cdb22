/** The exceptions the core throws: `ResourceNotFoundException` (the service
    and controller error for a missing id), `BusinessRuleViolationException`
    (the controllers' page-size rule), and the error a cache that refuses null
    values raises when a read-through tries to store one. */
module Exceptions {
  import Text
  import opened Wrappers

  datatype ResourceNotFoundException = ResourceNotFoundException(message: string)

  datatype BusinessRuleViolationException = BusinessRuleViolationException(errorCode: string, message: string)

  /** The `IllegalArgumentException` a cache built with null values disabled
      throws when asked to store null, naming the cache. */
  datatype NullValueRejected = NullValueRejected(cacheName: string)

  /** What a by-id endpoint can end in: the not-found exception its own
      `orElseThrow` raises (answered 404), or a cache error, which only the
      catch-all handler answers (500). */
  datatype EndpointError = NotFoundError(notFound: ResourceNotFoundException) | Unexpected(cacheError: NullValueRejected)

  /** The one-argument constructor: the message is kept as given. */
  function NotFoundWithMessage(message: string): (e: ResourceNotFoundException)
    ensures e.message == message
  {
    ResourceNotFoundException(message)
  }

  /** The separator `String.format("%s not found with %s: %s", ...)` puts between
      the resource name and the field name. */
  const NotFoundWith := " not found with "

  /** The three-argument constructor, with the field value already rendered by `%s`. */
  function NotFound(resourceName: string, fieldName: string, fieldValue: string): (e: ResourceNotFoundException)
    ensures |e.message| == |resourceName| + |NotFoundWith| + |fieldName| + 2 + |fieldValue|
    ensures e.message[..|resourceName|] == resourceName
    ensures e.message[|resourceName|..|e.message| - |fieldValue|] == NotFoundWith + fieldName + ": "
    ensures e.message[|e.message| - |fieldValue|..] == fieldValue
  {
    ResourceNotFoundException(resourceName + NotFoundWith + fieldName + ": " + fieldValue)
  }

  /** The exception every service and controller throws for a missing id:
      `new ResourceNotFoundException(resourceName, "id", id)`, where `%s` prints
      the `Long` id in decimal. */
  function NotFoundById(resourceName: string, id: int): ResourceNotFoundException {
    NotFound(resourceName, "id", Text.Decimal(id))
  }

  /** The message starts with the resource name, so it contains it
      (what the tests check with `hasMessageContaining`). */
  lemma NotFoundByIdNamesResource(resourceName: string, id: int)
    ensures NotFoundById(resourceName, id).message[..|resourceName|] == resourceName
    ensures Text.Contains(NotFoundById(resourceName, id).message, resourceName)
  {
    var m := NotFoundById(resourceName, id).message;
    assert Text.InfixAt(m, resourceName, 0);
  }

  /** The id can be read back from the end of the message, so two ids of one
      resource never share a message. */
  lemma NotFoundByIdCarriesId(resourceName: string, id: int)
    ensures var m := NotFoundById(resourceName, id).message;
            var start := |resourceName| + |NotFoundWith| + |"id: "|;
            start <= |m| && Text.ParseDecimal(m[start..]) == Some(id)
  {
    var m := NotFoundById(resourceName, id).message;
    var start := |resourceName| + |NotFoundWith| + |"id: "|;
    assert m[start..] == Text.Decimal(id);
    Text.DecimalRoundTrip(id);
  }

  lemma NotFoundByIdInjective(resourceName: string, m: int, n: int)
    requires NotFoundById(resourceName, m) == NotFoundById(resourceName, n)
    ensures m == n
  {
    NotFoundByIdCarriesId(resourceName, m);
    NotFoundByIdCarriesId(resourceName, n);
  }

  /** The message the order tests expect for order 1. */
  lemma OrderOneMessage()
    ensures NotFoundById("Order", 1).message == "Order not found with id: 1"
  {
    assert Text.Decimal(1) == "1";
  }

  /** The controllers' page-size violation. */
  function InvalidPageSize(): (e: BusinessRuleViolationException)
    ensures e.errorCode == "INVALID_PAGE_SIZE"
  {
    BusinessRuleViolationException("INVALID_PAGE_SIZE", "Page size cannot exceed 100 items")
  }
}
