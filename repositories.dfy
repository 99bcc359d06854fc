/** The two repositories the order service depends on, as abstract stores.
    Their query code is not part of this model; each store is described by the
    data it answers from and a log of the calls it has received, so that the
    order and number of the service's calls can be stated. */
module Repositories {
  import opened Wrappers
  import opened JavaLang
  import opened Statuses

  /** A `LocalDateTime`, as an instant on a single time line. */
  type LocalDateTime = int

  /** A `java.util.UUID`: its two 64-bit halves. */
  datatype Uuid = Uuid(mostSigBits: Long, leastSigBits: Long)

  /** A persisted client as far as orders refer to it; its other columns are
      not part of this model. */
  datatype ClientModel = ClientModel(id: Long)

  /** The order row the service builds before saving it. Its identifier is
      assigned by the store. */
  datatype OrderModel = OrderModel(client: ClientModel, orderDate: LocalDateTime, status: OrderStatus)

  /** The order transfer object: the service receives one, stamps its date,
      and the repository hands them out. */
  class OrderDto {
    var id: Option<Uuid>
    var clientId: Option<Long>
    var orderDate: Option<LocalDateTime>
    var status: Option<string>

    constructor (id: Option<Uuid>, clientId: Option<Long>, orderDate: Option<LocalDateTime>, status: Option<string>)
      ensures this.id == id && this.clientId == clientId
      ensures this.orderDate == orderDate && this.status == status
    {
      this.id := id;
      this.clientId := clientId;
      this.orderDate := orderDate;
      this.status := status;
    }
  }

  /** The nine arguments of a filtered search, in the order they are passed. */
  datatype OrderQuery = OrderQuery(
    id: Option<Uuid>, clientId: Option<Long>,
    dateTimeStart: Option<LocalDateTime>, dateTimeEnd: Option<LocalDateTime>,
    status: Option<string>, page: Option<Int>, linesPerPage: Option<Int>,
    direction: Option<string>, orderBy: Option<string>)

  /** One page of a filtered search and the number of matching orders. */
  datatype OrderPage = OrderPage(orders: seq<OrderDto>, totalElements: nat)

  datatype ClientCall = ExistsClientById(clientId: Long) | FindClientModelById(clientId: Long)

  /** `ClientRepository`: the registered clients by id. */
  class ClientRepository {
    var clients: map<Long, ClientModel>
    var calls: seq<ClientCall>

    /** Every client is stored under its own id. */
    ghost predicate Valid()
      reads this
    {
      forall id :: id in clients ==> clients[id].id == id
    }

    constructor (clients: map<Long, ClientModel>)
      requires forall id :: id in clients ==> clients[id].id == id
      ensures Valid()
      ensures this.clients == clients && calls == []
    {
      this.clients := clients;
      calls := [];
    }

    method ExistsClientById(clientId: Long) returns (registered: bool)
      modifies this`calls
      ensures registered <==> clientId in clients
      ensures calls == old(calls) + [ClientCall.ExistsClientById(clientId)]
    {
      registered := clientId in clients;
      calls := calls + [ClientCall.ExistsClientById(clientId)];
    }

    /** The client with this id, or null when there is none. */
    method FindClientModelById(clientId: Long) returns (client: Option<ClientModel>)
      modifies this`calls
      ensures client == if clientId in clients then Some(clients[clientId]) else None
      ensures calls == old(calls) + [ClientCall.FindClientModelById(clientId)]
    {
      client := if clientId in clients then Some(clients[clientId]) else None;
      calls := calls + [ClientCall.FindClientModelById(clientId)];
    }
  }

  datatype OrderCall =
    | SaveOrder(model: OrderModel)
    | ExistsOrderById(id: Uuid)
    | FindOrderById(id: Uuid)
    | FindFilteredOrders(query: OrderQuery)

  /** `OrderRepository`: the stored orders by id. How the store generates
      identifiers and answers a filtered search is not part of this model:
      `generateId` gives the identifier of the n-th save, and `search` the
      page returned for a query. */
  class OrderRepository {
    var orders: map<Uuid, OrderDto>
    var calls: seq<OrderCall>
    /** The number of orders saved so far. */
    var saves: nat
    const generateId: nat -> Uuid
    const search: OrderQuery -> OrderPage

    constructor (orders: map<Uuid, OrderDto>, generateId: nat -> Uuid, search: OrderQuery -> OrderPage)
      ensures this.orders == orders && calls == [] && saves == 0
      ensures this.generateId == generateId && this.search == search
    {
      this.orders := orders;
      calls := [];
      saves := 0;
      this.generateId := generateId;
      this.search := search;
    }

    /** Stores the order under the next generated identifier and returns it
        as a new transfer object. The store is assumed to generate an
        identifier no stored order has. */
    method SaveOrder(model: OrderModel) returns (saved: OrderDto)
      requires generateId(saves) !in orders
      modifies this
      ensures fresh(saved)
      ensures saved.id == Some(generateId(old(saves)))
      ensures saved.clientId == Some(model.client.id)
      ensures saved.orderDate == Some(model.orderDate)
      ensures saved.status == Some(model.status.name)
      ensures orders == old(orders)[generateId(old(saves)) := saved]
      ensures |orders| == |old(orders)| + 1
      ensures calls == old(calls) + [OrderCall.SaveOrder(model)]
      ensures saves == old(saves) + 1
    {
      var id := generateId(saves);
      saved := new OrderDto(Some(id), Some(model.client.id), Some(model.orderDate), Some(model.status.name));
      orders := orders[id := saved];
      calls := calls + [OrderCall.SaveOrder(model)];
      saves := saves + 1;
    }

    method ExistsOrderById(id: Uuid) returns (registered: bool)
      modifies this`calls
      ensures registered <==> id in orders
      ensures calls == old(calls) + [OrderCall.ExistsOrderById(id)]
    {
      registered := id in orders;
      calls := calls + [OrderCall.ExistsOrderById(id)];
    }

    /** The order with this id, or null when there is none. */
    method FindOrderById(id: Uuid) returns (order: Option<OrderDto>)
      modifies this`calls
      ensures order == if id in orders then Some(orders[id]) else None
      ensures calls == old(calls) + [OrderCall.FindOrderById(id)]
    {
      order := if id in orders then Some(orders[id]) else None;
      calls := calls + [OrderCall.FindOrderById(id)];
    }

    method FindFilteredOrders(query: OrderQuery) returns (page: OrderPage)
      modifies this`calls
      ensures page == search(query)
      ensures calls == old(calls) + [OrderCall.FindFilteredOrders(query)]
    {
      page := search(query);
      calls := calls + [OrderCall.FindFilteredOrders(query)];
    }
  }
}
