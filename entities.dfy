/** The JPA entities as Java objects: every field may be null (`Option`), an id is
    null until the entity is saved. The object graph is represented as a finite
    tree, so an order's customer does not point back at the order.
    Equality, hashing, printing, the constructors and the field constraints. */
module Entities {
  import opened Wrappers
  import Text

  datatype Customer = Customer(id: Option<int>, name: Option<string>, orders: Option<seq<Order>>)

  datatype Order = Order(id: Option<int>, description: Option<string>, customer: Option<Customer>, products: Option<seq<Product>>)

  /** The product entity is not part of this model beyond the fields the mapper reads. */
  datatype Product = Product(id: Option<int>, description: Option<string>, orders: Option<seq<Order>>)

  /** What the `Object o` argument of `equals` can be. */
  datatype Ref = Null | OrderRef(order: Order) | CustomerRef(customer: Customer) | ProductRef(product: Product) | OtherRef

  // ---------------------------------------------------------------- constructors

  /** `new Customer(name)`: no id yet, and the field initializer's empty order list. */
  function NewCustomer(name: string): (c: Customer)
    ensures c.id.None? && c.name == Some(name) && c.orders == Some([])
  {
    Customer(None, Some(name), Some([]))
  }

  /** `new Order(description, customer)` as it behaves: `@Builder.Default` moves the
      `products` initializer into the builder (and the generated no-argument
      constructor), so this hand-written constructor leaves `products` null. */
  function NewOrder(description: string, customer: Customer): (o: Order)
    ensures o.id.None? && o.description == Some(description) && o.customer == Some(customer)
  {
    Order(None, Some(description), Some(customer), None)
  }

  /** The order the constructor builds has no product list at all, although the
      field declares an empty one. */
  lemma NewOrderLeavesProductsNull(description: string, customer: Customer)
    ensures NewOrder(description, customer).products.None?
    ensures NewOrder(description, customer) != NewOrderCorrected(description, customer)
  {
  }

  /** `new Order(description, customer)` as the field declaration intends: an empty product list. */
  function NewOrderCorrected(description: string, customer: Customer): (o: Order)
    ensures o.id.None? && o.description == Some(description) && o.customer == Some(customer)
    ensures o.products == Some([])
  {
    Order(None, Some(description), Some(customer), Some([]))
  }

  /** `new Order()` (the generated no-argument constructor the services use),
      which does apply the `@Builder.Default` initializer. */
  function EmptyOrder(): (o: Order)
    ensures o.id.None? && o.description.None? && o.customer.None? && o.products == Some([])
  {
    Order(None, None, None, Some([]))
  }

  // ---------------------------------------------------------------- equals

  /** `Objects.equals` on two `Long` ids: both null, or the same value. */
  predicate IdEquals(a: Option<int>, b: Option<int>) {
    (a.None? && b.None?) || (a.Some? && b.Some? && a.value == b.value)
  }

  /** `Order.equals(o)`; `sameObject` is `this == o`. */
  predicate OrderEquals(self: Order, o: Ref, sameObject: bool)
    requires sameObject ==> o == OrderRef(self)
  {
    if sameObject then true
    else match o
      case OrderRef(other) => IdEquals(self.id, other.id)
      case _ => false
  }

  /** `Customer.equals(o)`; `sameObject` is `this == o`. */
  predicate CustomerEquals(self: Customer, o: Ref, sameObject: bool)
    requires sameObject ==> o == CustomerRef(self)
  {
    if sameObject then true
    else match o
      case CustomerRef(other) => IdEquals(self.id, other.id)
      case _ => false
  }

  /** An order equals exactly itself and the orders with an equal id; null,
      customers and other objects are never equal to it. */
  lemma OrderEqualsMeaning(self: Order, o: Ref, sameObject: bool)
    requires sameObject ==> o == OrderRef(self)
    ensures OrderEquals(self, o, sameObject) <==> sameObject || (o.OrderRef? && o.order.id == self.id)
    ensures o.Null? || o.CustomerRef? || o.ProductRef? || o.OtherRef? ==> !OrderEquals(self, o, sameObject)
  {
  }

  lemma CustomerEqualsMeaning(self: Customer, o: Ref, sameObject: bool)
    requires sameObject ==> o == CustomerRef(self)
    ensures CustomerEquals(self, o, sameObject) <==> sameObject || (o.CustomerRef? && o.customer.id == self.id)
    ensures o.Null? || o.OrderRef? || o.ProductRef? || o.OtherRef? ==> !CustomerEquals(self, o, sameObject)
  {
  }

  /** Between distinct objects, order equality is an equivalence on ids; in
      particular two unsaved orders (both ids null) are equal. */
  lemma OrderEqualsIsEquivalence(a: Order, b: Order, c: Order)
    ensures OrderEquals(a, OrderRef(a), false)
    ensures OrderEquals(a, OrderRef(b), false) == OrderEquals(b, OrderRef(a), false)
    ensures OrderEquals(a, OrderRef(b), false) && OrderEquals(b, OrderRef(c), false) ==> OrderEquals(a, OrderRef(c), false)
    ensures a.id.None? && b.id.None? ==> OrderEquals(a, OrderRef(b), false)
  {
  }

  lemma CustomerEqualsIsEquivalence(a: Customer, b: Customer, c: Customer)
    ensures CustomerEquals(a, CustomerRef(a), false)
    ensures CustomerEquals(a, CustomerRef(b), false) == CustomerEquals(b, CustomerRef(a), false)
    ensures CustomerEquals(a, CustomerRef(b), false) && CustomerEquals(b, CustomerRef(c), false) ==> CustomerEquals(a, CustomerRef(c), false)
    ensures a.id.None? && b.id.None? ==> CustomerEquals(a, CustomerRef(b), false)
  {
  }

  // ---------------------------------------------------------------- hashCode

  const TwoTo32: int := 0x1_0000_0000
  const TwoTo64: int := 0x1_0000_0000_0000_0000

  predicate IsLong(v: int) {
    -0x8000_0000_0000_0000 <= v < 0x8000_0000_0000_0000
  }

  predicate IsInt(v: int) {
    -0x8000_0000 <= v < 0x8000_0000
  }

  /** A Java narrowing to `int` (and `int` overflow): the value congruent to `v`
      modulo 2^32 in the `int` range. */
  function ToInt(v: int): (r: int)
    ensures IsInt(r)
    ensures (r - v) % TwoTo32 == 0
  {
    var low := v % TwoTo32;
    if low >= 0x8000_0000 then low - TwoTo32 else low
  }

  /** `Long.hashCode(v)`: `(int) (v ^ (v >>> 32))`. */
  function LongHashCode(v: int): (h: int)
    requires IsLong(v)
    ensures IsInt(h)
  {
    var bits := (if v < 0 then v + TwoTo64 else v) as bv64;
    ToInt((bits ^ (bits >> 32)) as int)
  }

  predicate IsLongId(id: Option<int>) {
    id.Some? ==> IsLong(id.value)
  }

  /** `Objects.hash(id)`: `31 * 1 + (id == null ? 0 : id.hashCode())` in `int` arithmetic. */
  function IdHash(id: Option<int>): (h: int)
    requires IsLongId(id)
    ensures IsInt(h)
    ensures id.None? ==> h == 31
  {
    ToInt(31 + if id.None? then 0 else LongHashCode(id.value))
  }

  function OrderHashCode(o: Order): int
    requires IsLongId(o.id)
  {
    IdHash(o.id)
  }

  function CustomerHashCode(c: Customer): int
    requires IsLongId(c.id)
  {
    IdHash(c.id)
  }

  /** The hash depends on nothing but the id, so equal orders hash equally. */
  lemma OrderHashConsistent(a: Order, b: Order, sameObject: bool)
    requires sameObject ==> a == b
    requires IsLongId(a.id) && IsLongId(b.id)
    requires OrderEquals(a, OrderRef(b), sameObject)
    ensures OrderHashCode(a) == OrderHashCode(b)
  {
  }

  lemma CustomerHashConsistent(a: Customer, b: Customer, sameObject: bool)
    requires sameObject ==> a == b
    requires IsLongId(a.id) && IsLongId(b.id)
    requires CustomerEquals(a, CustomerRef(b), sameObject)
    ensures CustomerHashCode(a) == CustomerHashCode(b)
  {
  }

  // ---------------------------------------------------------------- toString

  /** String concatenation of a `Long` that may be null. */
  function LongText(v: Option<int>): string {
    match v
    case None => "null"
    case Some(n) => Text.Decimal(n)
  }

  /** String concatenation of a `String` that may be null. */
  function StringText(s: Option<string>): string {
    match s
    case None => "null"
    case Some(t) => t
  }

  /** `customer != null ? customer.getId() : null`. */
  function CustomerIdOf(o: Order): Option<int> {
    match o.customer
    case None => None
    case Some(c) => c.id
  }

  function OrderToString(o: Order): string {
    "Order{id=" + LongText(o.id) + ", description='" + StringText(o.description) + "'"
      + ", customerId=" + LongText(CustomerIdOf(o)) + "}"
  }

  function CustomerToString(c: Customer): string {
    "Customer{id=" + LongText(c.id) + ", name='" + StringText(c.name) + "'" + "}"
  }

  /** The printed order opens with its id, which reads back as the id, and closes
      with its customer's id, or "null" when there is no customer or it is unsaved. */
  lemma OrderToStringShape(o: Order)
    ensures var s := OrderToString(o);
            var idText := LongText(o.id);
            var tail := ", customerId=" + LongText(CustomerIdOf(o)) + "}";
            && |s| >= 9 + |idText| + |tail|
            && s[..9] == "Order{id="
            && s[9..9 + |idText|] == idText
            && (o.id.Some? ==> Text.ParseDecimal(s[9..9 + |idText|]) == o.id)
            && s[|s| - |tail|..] == tail
            && (o.customer.None? ==> tail == ", customerId=null}")
  {
    var prefix := "Order{id=";
    var idText := LongText(o.id);
    var middle := ", description='" + StringText(o.description) + "'";
    var tail := ", customerId=" + LongText(CustomerIdOf(o)) + "}";
    var s := OrderToString(o);
    assert |prefix| == 9;
    assert s == prefix + idText + middle + tail;
    ConcatParts(prefix, idText, middle);
    ConcatParts(prefix + idText, middle, tail);
    assert s[..9] == (prefix + idText + middle)[..9];
    assert s[9..9 + |idText|] == (prefix + idText + middle)[9..9 + |idText|];
    if o.id.Some? {
      Text.DecimalRoundTrip(o.id.value);
    }
  }

  /** Where the three parts of a concatenation sit in it. */
  lemma ConcatParts(a: string, b: string, c: string)
    ensures var s := a + b + c;
            && |s| == |a| + |b| + |c|
            && s[..|a|] == a
            && s[|a|..|a| + |b|] == b
            && s[|a| + |b|..] == c
  {
  }

  lemma CustomerToStringShape(c: Customer)
    ensures var s := CustomerToString(c);
            var idText := LongText(c.id);
            var tail := ", name='" + StringText(c.name) + "'" + "}";
            && |s| == 12 + |idText| + |tail|
            && s[..12] == "Customer{id="
            && s[12..12 + |idText|] == idText
            && (c.id.Some? ==> Text.ParseDecimal(s[12..12 + |idText|]) == c.id)
            && s[12 + |idText|..] == tail
  {
    var idText := LongText(c.id);
    var tail := ", name='" + StringText(c.name) + "'" + "}";
    var head := "Customer{id=" + idText;
    assert CustomerToString(c) == head + tail;
    assert head[..12] == "Customer{id=";
    if c.id.Some? {
      Text.DecimalRoundTrip(c.id.value);
    }
  }

  // ---------------------------------------------------------------- field constraints

  /** `@NotBlank`, as Hibernate Validator checks it: not null, and not empty
      once `trim()` has removed the characters up to U+0020 from both ends. */
  predicate NotBlank(s: Option<string>) {
    s.Some? && Text.Trim(s.value) != []
  }

  /** A value is blank exactly when it is null or all its characters are at
      most U+0020; any character above, a Unicode space such as U+2000
      included, makes it non-blank. */
  lemma NotBlankIffVisibleChar(s: Option<string>)
    ensures NotBlank(s) <==> s.Some? && exists k :: 0 <= k < |s.value| && s.value[k] > ' '
  {
    if s.Some? {
      Text.TrimEmptyIffBlank(s.value);
    }
  }

  /** `@Size(min, max)`: a null value passes; otherwise the length is in range. */
  predicate SizeWithin(s: Option<string>, min: nat, max: nat) {
    s.None? || min <= |s.value| <= max
  }

  /** The constraints on an order: the description non-blank and 5..255
      characters long (Bean Validation), the customer present (the JPA mapping's
      `optional = false`). */
  predicate ValidOrder(o: Order) {
    NotBlank(o.description) && SizeWithin(o.description, 5, 255) && o.customer.Some?
  }

  /** The Bean Validation constraints on a customer: name non-blank and 2..255
      characters long. */
  predicate ValidCustomer(c: Customer) {
    NotBlank(c.name) && SizeWithin(c.name, 2, 255)
  }

  /** An order built from a description that meets the constraints meets them. */
  lemma NewOrderValid(description: string, customer: Customer)
    requires NotBlank(Some(description)) && 5 <= |description| <= 255
    ensures ValidOrder(NewOrder(description, customer))
    ensures !ValidOrder(NewOrder(description, customer).(customer := None))
    ensures !ValidOrder(EmptyOrder())
  {
  }

  /** A blank name (characters up to U+0020 only, control characters included)
      is refused whatever its length, and a name of two U+2000 spaces is not blank. */
  lemma BlankNameRefused(c: Customer)
    requires c.name.Some? && forall k | 0 <= k < |c.name.value| :: c.name.value[k] <= ' '
    ensures !ValidCustomer(c)
    ensures ValidCustomer(c.(name := Some("\U{2000}\U{2000}")))
  {
    Text.TrimEmptyIffBlank(c.name.value);
    var wide := "\U{2000}\U{2000}";
    assert wide[0] > ' ';
    Text.TrimEmptyIffBlank(wide);
  }
}
