/** The data transfer objects the services return and cache, and the requests
    they take. Every DTO here is built from a saved row, so its ids are present;
    the lists a repository returns without an ordering are sets. */
module Dto {

  /** An order as listed inside a customer. */
  datatype CustomerOrderDto = CustomerOrderDto(id: int, description: string)

  datatype CustomerDto = CustomerDto(id: int, name: string, orders: set<CustomerOrderDto>)

  /** The customer as shown inside an order. */
  datatype OrderCustomerDto = OrderCustomerDto(id: int, name: string)

  /** A product as listed inside an order. */
  datatype OrderProductDto = OrderProductDto(id: int, description: string)

  datatype OrderDto = OrderDto(id: int, description: string, customer: OrderCustomerDto, products: set<OrderProductDto>)

  datatype ProductDto = ProductDto(id: int, description: string, orderIds: set<int>)

  datatype CustomerRequest = CustomerRequest(name: string)

  /** `customerId` is `@NotNull`, so a request that reaches a service carries one. */
  datatype OrderRequest = OrderRequest(description: string, customerId: int)

  datatype ProductRequest = ProductRequest(description: string)
}
