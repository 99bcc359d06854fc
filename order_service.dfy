/** `OrderService`: admission of new orders, lookup by id and the filtered
    search hand-off. The decisions are pure functions over the stores'
    contents; the service class performs them against the repositories in
    the source's order and is proved to agree with them. */
module OrderServices {
  import opened Wrappers
  import opened JavaLang
  import opened StringsValidation
  import opened Statuses
  import opened Exceptions
  import opened Repositories

  /** `validateClientId` as a decision over the registered client ids: a
      missing id is refused first, then an id no client has. */
  function ClientIdCheck(registered: set<Long>, clientId: Option<Long>): (o: Outcome<ClientError>)
    ensures o.Pass? <==> clientId.Some? && clientId.value in registered
    ensures clientId.None? ==> o == Fail(ClientIdRequired)
    ensures clientId.Some? && o.Fail? ==> o == Fail(ClientNotRegistered(clientId.value))
  {
    if clientId.None? then Fail(ClientIdRequired)
    else if clientId.value !in registered then Fail(ClientNotRegistered(clientId.value))
    else Pass
  }

  /** `validateOrderStatus`: blank text is refused as missing; other text is
      upper-cased, stripped of spaces and looked up by exact name, and a
      failed lookup is refused quoting the text as given. The "missing" error
      is thrown inside the `try` but is not an `IllegalArgumentException`, so
      it leaves the `catch` unchanged. */
  function ValidateOrderStatus(vocabulary: set<string>, status: Option<string>): (r: Result<OrderStatus, ClientError>)
    ensures r == Failure(StatusRequired) <==> IsBlank(status)
    ensures r.Success? ==> r.value.name in vocabulary && r.value.name == Normalize(status.value)
    ensures !IsBlank(status) && r.Failure? ==> r == Failure(StatusInvalid(status.value))
    ensures !IsBlank(status) ==> (r.Success? <==> Normalize(status.value) in vocabulary)
  {
    if !IsBlank(status) then
      match ValueOf(vocabulary, Normalize(status.value))
      case Some(validated) => Success(validated)
      case None => Failure(StatusInvalid(status.value))
    else
      Failure(StatusRequired)
  }

  /** Two texts get the same verdict: the same status, or both refused as
      missing, or both refused as invalid (each message quoting its own
      text). */
  ghost predicate SameVerdict(vocabulary: set<string>, a: string, b: string) {
    && (ValidateOrderStatus(vocabulary, Some(a)).Success? <==> ValidateOrderStatus(vocabulary, Some(b)).Success?)
    && (ValidateOrderStatus(vocabulary, Some(a)).Success? ==>
          ValidateOrderStatus(vocabulary, Some(a)) == ValidateOrderStatus(vocabulary, Some(b)))
    && (ValidateOrderStatus(vocabulary, Some(a)) == Failure(StatusRequired) <==>
          ValidateOrderStatus(vocabulary, Some(b)) == Failure(StatusRequired))
    && (ValidateOrderStatus(vocabulary, Some(a)) == Failure(StatusInvalid(a)) <==>
          ValidateOrderStatus(vocabulary, Some(b)) == Failure(StatusInvalid(b)))
  }

  /** Texts with the same normal form get the same verdict. */
  lemma StatusVerdictDependsOnNormalForm(vocabulary: set<string>, a: string, b: string)
    requires Normalize(a) == Normalize(b)
    ensures SameVerdict(vocabulary, a, b)
  {
    NormalizePreservesBlankness(a);
    NormalizePreservesBlankness(b);
  }

  /** A space anywhere in the text, and the case of an ASCII letter, do not
      change the verdict. */
  lemma StatusIgnoresSpacesAndCase(vocabulary: set<string>, prefix: string, c: char, suffix: string)
    ensures IsRegexSpace(c) ==> SameVerdict(vocabulary, prefix + [c] + suffix, prefix + suffix)
    ensures 'a' <= c <= 'z' ==>
      SameVerdict(vocabulary, prefix + [c] + suffix, prefix + [(c as int - 32) as char] + suffix)
  {
    if IsRegexSpace(c) {
      NormalizeIgnoresSpace(prefix, c, suffix);
      StatusVerdictDependsOnNormalForm(vocabulary, prefix + [c] + suffix, prefix + suffix);
    }
    if 'a' <= c <= 'z' {
      NormalizeIgnoresAsciiCase(prefix, c, suffix);
      StatusVerdictDependsOnNormalForm(vocabulary, prefix + [c] + suffix, prefix + [(c as int - 32) as char] + suffix);
    }
  }

  /** A validated status is accepted again when given by its own name. */
  lemma StatusNameRoundTrip(vocabulary: set<string>, text: string)
    requires ValidateOrderStatus(vocabulary, Some(text)).Success?
    ensures ValidateOrderStatus(vocabulary, Some(ValidateOrderStatus(vocabulary, Some(text)).value.name))
            == ValidateOrderStatus(vocabulary, Some(text))
  {
    NormalizeIdempotent(text);
    NormalizePreservesBlankness(text);
  }

  /** Worked case: padding and lower case still reach PENDING. */
  lemma StatusExamplePadded(vocabulary: set<string>)
    requires "PENDING" in vocabulary
    ensures ValidateOrderStatus(vocabulary, Some("  pending ")) == Success(OrderStatus("PENDING"))
  {
    NormalizeAsciiTo("  pending ", "PENDING");
  }

  /** Worked case: mixed case and an inner space still reach PENDING. */
  lemma StatusExampleMixedCase(vocabulary: set<string>)
    requires "PENDING" in vocabulary
    ensures ValidateOrderStatus(vocabulary, Some("PeNd InG")) == Success(OrderStatus("PENDING"))
  {
    NormalizeAsciiTo("PeNd InG", "PENDING");
  }

  /** Worked cases: null, empty and blank text is missing. */
  lemma StatusExamplesMissing(vocabulary: set<string>, status: Option<string>)
    requires status in [None, Some(""), Some(" \t ")]
    ensures ValidateOrderStatus(vocabulary, status) == Failure(StatusRequired)
  {
    assert IsBlank(status);
  }

  /** Worked case: BOGUS, when it is not a status, is refused as invalid,
      quoting the text. */
  lemma StatusExampleInvalid(vocabulary: set<string>)
    requires "BOGUS" !in vocabulary
    ensures ValidateOrderStatus(vocabulary, Some("BOGUS")) == Failure(StatusInvalid("BOGUS"))
  {
    assert !IsBlank(Some("BOGUS")) by {
      assert !IsWhitespace("BOGUS"[0]);
    }
    NormalizeAsciiTo("BOGUS", "BOGUS");
  }

  /** The admission decision of `saveOrder`, fail-fast: the client id is
      checked before the status, so a client error is reported whatever the
      status, and an order is admitted only when both checks pass. */
  function Admission(registered: set<Long>, vocabulary: set<string>, clientId: Option<Long>, status: Option<string>)
    : (r: Result<OrderStatus, ClientError>)
    ensures r.Success? <==>
      clientId.Some? && clientId.value in registered && !IsBlank(status) && Normalize(status.value) in vocabulary
    ensures r.Success? ==> r.value.name in vocabulary && r.value.name == Normalize(status.value)
    ensures clientId.None? ==> r == Failure(ClientIdRequired)
    ensures clientId.Some? && clientId.value !in registered ==> r == Failure(ClientNotRegistered(clientId.value))
    ensures clientId.Some? && clientId.value in registered ==> r == ValidateOrderStatus(vocabulary, status)
    ensures r.Failure? && (r.error.StatusRequired? || r.error.StatusInvalid?) ==>
      clientId.Some? && clientId.value in registered
  {
    match ClientIdCheck(registered, clientId)
    case Fail(e) => Failure(e)
    case Pass => ValidateOrderStatus(vocabulary, status)
  }

  /** `validateId` as a decision over the stored order ids. */
  function OrderIdCheck(registered: set<Uuid>, id: Option<Uuid>): (o: Outcome<ClientError>)
    ensures o.Pass? <==> id.Some? && id.value in registered
    ensures id.None? ==> o == Fail(OrderIdRequired)
    ensures id.Some? && o.Fail? ==> o == Fail(OrderIdNotRegistered)
  {
    if id.None? then Fail(OrderIdRequired)
    else if id.value !in registered then Fail(OrderIdNotRegistered)
    else Pass
  }

  class OrderService {
    const orderRepository: OrderRepository
    const clientRepository: ClientRepository
    /** The names of the `OrderStatus` constants. */
    const orderStatuses: set<string>

    constructor (orderRepository: OrderRepository, clientRepository: ClientRepository, orderStatuses: set<string>)
      ensures this.orderRepository == orderRepository && this.clientRepository == clientRepository
      ensures this.orderStatuses == orderStatuses
    {
      this.orderRepository := orderRepository;
      this.clientRepository := clientRepository;
      this.orderStatuses := orderStatuses;
    }

    /** The admission decision for this transfer object against the current
        client store. */
    ghost function AdmissionOf(orderDto: OrderDto): Result<OrderStatus, ClientError>
      reads orderDto, clientRepository
    {
      Admission(clientRepository.clients.Keys, orderStatuses, orderDto.clientId, orderDto.status)
    }

    /** `saveOrder`: validate the client, then the status; only then stamp
        the transfer object with `now`, fetch the client, and save an order
        for that client, date and status, returning what the store returns.
        A refused order writes nothing and leaves the date as it was. */
    method SaveOrder(orderDto: OrderDto, now: LocalDateTime) returns (r: Result<OrderDto, ClientError>)
      requires clientRepository.Valid()
      requires orderRepository.generateId(orderRepository.saves) !in orderRepository.orders
      modifies orderDto, orderRepository, clientRepository`calls
      ensures r.Failure? <==> old(AdmissionOf(orderDto)).Failure?
      ensures r.Failure? ==> r.error == old(AdmissionOf(orderDto)).error
      ensures r.Failure? ==> orderDto.orderDate == old(orderDto.orderDate)
      ensures r.Failure? ==> orderRepository.calls == old(orderRepository.calls)
      ensures r.Failure? ==> orderRepository.orders == old(orderRepository.orders)
      ensures r.Failure? ==> orderRepository.saves == old(orderRepository.saves)
      ensures old(orderDto.clientId).None? ==> clientRepository.calls == old(clientRepository.calls)
      ensures old(orderDto.clientId).Some? && r.Failure? ==>
        clientRepository.calls == old(clientRepository.calls) + [ClientCall.ExistsClientById(old(orderDto.clientId).value)]
      ensures r.Success? ==>
        var clientId := old(orderDto.clientId).value;
        var model := OrderModel(clientRepository.clients[clientId], now, old(AdmissionOf(orderDto)).value);
        var newId := orderRepository.generateId(old(orderRepository.saves));
        && orderDto.orderDate == Some(now)
        && clientRepository.calls == old(clientRepository.calls)
             + [ClientCall.ExistsClientById(clientId), ClientCall.FindClientModelById(clientId)]
        && orderRepository.calls == old(orderRepository.calls) + [OrderCall.SaveOrder(model)]
        && newId !in old(orderRepository.orders)
        && fresh(r.value)
        && orderRepository.orders == old(orderRepository.orders)[newId := r.value]
        && r.value.id == Some(newId) && r.value.clientId == Some(clientId)
        && r.value.orderDate == Some(now) && r.value.status == Some(model.status.name)
        && orderRepository.saves == old(orderRepository.saves) + 1
      ensures orderDto.id == old(orderDto.id) && orderDto.clientId == old(orderDto.clientId)
      ensures orderDto.status == old(orderDto.status)
    {
      var clientCheck := ValidateClientId(orderDto.clientId);
      if clientCheck.Fail? {
        return Failure(clientCheck.error);
      }
      var validated := ValidateOrderStatus(orderStatuses, orderDto.status);
      if validated.Failure? {
        return Failure(validated.error);
      }
      orderDto.orderDate := Some(now);

      var client := clientRepository.FindClientModelById(orderDto.clientId.value);
      assert client.Some?;

      var orderModel := OrderModel(client.value, orderDto.orderDate.value, validated.value);
      var saved := orderRepository.SaveOrder(orderModel);
      return Success(saved);
    }

    /** `validateClientId`: a missing id is refused without consulting the
        client store; otherwise one existence check decides. */
    method ValidateClientId(clientId: Option<Long>) returns (o: Outcome<ClientError>)
      modifies clientRepository`calls
      ensures o == ClientIdCheck(clientRepository.clients.Keys, clientId)
      ensures clientId.None? ==> clientRepository.calls == old(clientRepository.calls)
      ensures clientId.Some? ==>
        clientRepository.calls == old(clientRepository.calls) + [ClientCall.ExistsClientById(clientId.value)]
    {
      if clientId.None? {
        return Fail(ClientIdRequired);
      }
      var registered := clientRepository.ExistsClientById(clientId.value);
      if !registered {
        return Fail(ClientNotRegistered(clientId.value));
      }
      return Pass;
    }

    /** `findById`: validate the id, then return the stored order as the
        store hands it out. */
    method FindById(id: Option<Uuid>) returns (r: Result<OrderDto, ClientError>)
      modifies orderRepository`calls
      ensures r.Failure? <==> OrderIdCheck(orderRepository.orders.Keys, id).Fail?
      ensures r.Failure? ==> r.error == OrderIdCheck(orderRepository.orders.Keys, id).error
      ensures r.Success? ==> r.value == orderRepository.orders[id.value]
      ensures id.None? ==> orderRepository.calls == old(orderRepository.calls)
      ensures id.Some? && r.Failure? ==>
        orderRepository.calls == old(orderRepository.calls) + [OrderCall.ExistsOrderById(id.value)]
      ensures r.Success? ==>
        orderRepository.calls == old(orderRepository.calls)
          + [OrderCall.ExistsOrderById(id.value), OrderCall.FindOrderById(id.value)]
    {
      var check := ValidateId(id);
      if check.Fail? {
        return Failure(check.error);
      }
      var found := orderRepository.FindOrderById(id.value);
      assert found.Some?;
      return Success(found.value);
    }

    /** `validateId`: a missing id is refused without consulting the order
        store; otherwise one existence check decides. */
    method ValidateId(id: Option<Uuid>) returns (o: Outcome<ClientError>)
      modifies orderRepository`calls
      ensures o == OrderIdCheck(orderRepository.orders.Keys, id)
      ensures id.None? ==> orderRepository.calls == old(orderRepository.calls)
      ensures id.Some? ==> orderRepository.calls == old(orderRepository.calls) + [OrderCall.ExistsOrderById(id.value)]
    {
      if id.None? {
        return Fail(OrderIdRequired);
      }
      var registered := orderRepository.ExistsOrderById(id.value);
      if !registered {
        return Fail(OrderIdNotRegistered);
      }
      return Pass;
    }

    /** `findFilteredOrders`: no validation or normalisation; the nine
        arguments go to the store unchanged and in order, and its page is
        returned. */
    method FindFilteredOrders(id: Option<Uuid>, clientId: Option<Long>, dateTimeStart: Option<LocalDateTime>,
                              dateTimeEnd: Option<LocalDateTime>, status: Option<string>, page: Option<Int>,
                              linesPerPage: Option<Int>, direction: Option<string>, orderBy: Option<string>)
      returns (result: OrderPage)
      modifies orderRepository`calls
      ensures var query := OrderQuery(id, clientId, dateTimeStart, dateTimeEnd, status, page, linesPerPage, direction, orderBy);
        && orderRepository.calls == old(orderRepository.calls) + [OrderCall.FindFilteredOrders(query)]
        && result == orderRepository.search(query)
    {
      var query := OrderQuery(id, clientId, dateTimeStart, dateTimeEnd, status, page, linesPerPage, direction, orderBy);
      result := orderRepository.FindFilteredOrders(query);
    }
  }

  /** Worked case: stores with one registered client and no orders admit a
      "  pending " order for that client, stamped with the given time. */
  method SaveOrderExample(now: LocalDateTime) returns (r: Result<OrderDto, ClientError>)
    ensures r.Success?
    ensures r.value.clientId == Some(7) && r.value.orderDate == Some(now)
    ensures r.value.status == Some("PENDING")
  {
    var clients := new ClientRepository(map[7 := ClientModel(7)]);
    var orders := new OrderRepository(map[], (n: nat) => Uuid(0, 1), (q: OrderQuery) => OrderPage([], 0));
    var service := new OrderService(orders, clients, {"PENDING"});
    var dto := new OrderDto(None, Some(7), None, Some("  pending "));
    StatusExamplePadded({"PENDING"});
    r := service.SaveOrder(dto, now);
  }
}
