# Order admission and lookup in `OrderService`

A Dafny model of the order service of the *cadastro e consulta* (registration
and lookup) application. The service admits new orders for registered clients,
looks orders up by identifier and hands filtered searches to the order store.
Its decisions are modelled as pure functions and its calls into the two
repositories as methods of a class. The proofs cover:

- **Status parsing** (`validateOrderStatus`). Null, empty or whitespace-only
  text is refused as missing. Other text is upper-cased, stripped of every
  space character and looked up by exact name among the `OrderStatus`
  constants. A failed lookup is refused by a message that quotes the text as
  the caller gave it. The constants of `OrderStatus` are not modelled, so the
  vocabulary is modelled as a set of constant names.
- **Client and order id checks** (`validateClientId`, `validateId`). A null
  id is refused before any repository call. Otherwise one existence check
  decides.
- **Order creation** (`saveOrder`). The client id is checked first, then the
  status, failing fast. Only then is the transfer object stamped with the
  current time, the client fetched, an order built from client, date and
  status, and saved exactly once. The store's reply is returned. A refused
  order writes nothing and leaves the transfer object's date untouched.
- **Lookup and search** (`findById`, `findFilteredOrders`). Lookup
  validates the id, then returns the stored order unchanged. Search forwards its
  nine arguments, unchanged and in order.

Layout, one module per file:

- `wrappers.dfy` (`Wrappers`): null references and thrown exceptions as values.
- `java_lang.dfy` (`JavaLang`): `long`/`int` widths, `Character.isWhitespace`,
  `String.toUpperCase` and `Long.toString`.
- `strings_validation.dfy` (`StringsValidation`): `removeAllSpaces` and Apache `isBlank`.
- `statuses.dfy` (`Statuses`): `OrderStatus`, `valueOf` and the normal form of status text.
- `exceptions.dfy` (`Exceptions`): the `ClientErrorException` messages.
- `repositories.dfy` (`Repositories`): the client and order stores, and the order records.
- `order_service.dfy` (`OrderServices`): the decisions, and the `OrderService` class.

The repositories keep a log of the calls they receive (`calls`). The service
methods state exactly which calls they make and in what order. That is how
"no repository call for a null id" and "save exactly once" are expressed.
The clock is the `now` parameter of `SaveOrder`.

Three facts about the code shape the model:

- The code upper-cases the status text and then removes its spaces
  (`src/main/java/com/rodrigopettenon/cadastro_e_consulta/services/OrderService.java:62`). The lemma `SpaceRemovalCommutesWithUpperCase` shows the other
  order gives the same text, because upper-casing neither creates nor removes
  whitespace.
- The "order not registered" message (`src/main/java/com/rodrigopettenon/cadastro_e_consulta/services/OrderService.java:84`) does not contain the
  offending id.
- The service has no path for an unavailable store; see "Left out".

## Model

| member | source | states |
|---|---|---|
| JavaLang.UpperCaseOf | src/main/java/com/rodrigopettenon/cadastro_e_consulta/services/OrderService.java:62 | upper-casing a character never creates or destroys whitespace and yields at least one character |
| JavaLang.ToUpperCaseIdempotent | src/main/java/com/rodrigopettenon/cadastro_e_consulta/services/OrderService.java:62 | upper-casing text twice is the same as upper-casing it once |
| JavaLang.IsWhitespace | src/main/java/com/rodrigopettenon/cadastro_e_consulta/services/OrderService.java:61 | space, tab, line feed and carriage return are whitespace; the three non-breaking spaces are not |
| JavaLang.ToUpperCase | src/main/java/com/rodrigopettenon/cadastro_e_consulta/services/OrderService.java:62 | upper-casing never shortens text |
| JavaLang.Decimal | src/main/java/com/rodrigopettenon/cadastro_e_consulta/services/OrderService.java:55 | the decimal rendering of a number is a non-empty string of digits, with no leading zero, whose value is the number |
| JavaLang.DecimalInjective | src/main/java/com/rodrigopettenon/cadastro_e_consulta/services/OrderService.java:55 | distinct numbers have distinct decimal renderings |
| JavaLang.LongToStringInjective | src/main/java/com/rodrigopettenon/cadastro_e_consulta/services/OrderService.java:55 | distinct client ids render as distinct texts in the "client not registered" message |
| JavaLang.LongToString | src/main/java/com/rodrigopettenon/cadastro_e_consulta/services/OrderService.java:55 | a minus sign exactly for negative ids, then the digits whose value is the id's magnitude, with no leading zero |
| StringsValidation.RemoveAllSpaces | src/main/java/com/rodrigopettenon/cadastro_e_consulta/services/OrderService.java:62 | the result holds no space character and only characters of the input |
| StringsValidation.RemoveAllSpacesAppend | src/main/java/com/rodrigopettenon/cadastro_e_consulta/services/OrderService.java:62 | space removal works piecewise over concatenation |
| StringsValidation.IsBlank | src/main/java/com/rodrigopettenon/cadastro_e_consulta/services/OrderService.java:61 | null, empty and whitespace-only text are blank; blank text holds only whitespace |
| Statuses.ValueOf | src/main/java/com/rodrigopettenon/cadastro_e_consulta/services/OrderService.java:63 | a constant is found exactly when the name is in the vocabulary, and it carries that name |
| Statuses.NormalizeIdempotent | src/main/java/com/rodrigopettenon/cadastro_e_consulta/services/OrderService.java:62 | the normal form of a normal form is itself |
| Statuses.Normalize | src/main/java/com/rodrigopettenon/cadastro_e_consulta/services/OrderService.java:62 | the normal form of status text holds no space character |
| Statuses.SpaceRemovalCommutesWithUpperCase | src/main/java/com/rodrigopettenon/cadastro_e_consulta/services/OrderService.java:62 | removing spaces before or after upper-casing gives the same text |
| Statuses.NormalizePreservesBlankness | src/main/java/com/rodrigopettenon/cadastro_e_consulta/services/OrderService.java:61-62 | text is whitespace-only exactly when its normal form is |
| Statuses.NormalizeIgnoresUpperCasing | src/main/java/com/rodrigopettenon/cadastro_e_consulta/services/OrderService.java:62 | upper-casing the text first does not change its normal form |
| Statuses.NormalizeIgnoresSpace | src/main/java/com/rodrigopettenon/cadastro_e_consulta/services/OrderService.java:62 | inserting a space character anywhere does not change the normal form |
| Statuses.NormalizeIgnoresAsciiCase | src/main/java/com/rodrigopettenon/cadastro_e_consulta/services/OrderService.java:62 | changing one ASCII letter's case does not change the normal form |
| Statuses.NormalizeAscii | src/main/java/com/rodrigopettenon/cadastro_e_consulta/services/OrderService.java:62 | on ASCII text the normal form equals a reference definition: drop spaces, raise a..z |
| Exceptions.MessageIdentifiesError | src/main/java/com/rodrigopettenon/cadastro_e_consulta/services/OrderService.java:52-84 | equal messages mean the same error, including the same rejected client id or status text |
| Exceptions.ClientError.Message | src/main/java/com/rodrigopettenon/cadastro_e_consulta/services/OrderService.java:52-84 | every message is non-empty; the unknown-client message ends with the id and the invalid-status message with the text |
| OrderServices.ClientIdCheck | src/main/java/com/rodrigopettenon/cadastro_e_consulta/services/OrderService.java:50-57 | a client id passes exactly when present and registered; null is "required", an unknown id is "not registered" with that id |
| OrderServices.ValidateOrderStatus | src/main/java/com/rodrigopettenon/cadastro_e_consulta/services/OrderService.java:59-71 | "status required" exactly for blank text; success only with a vocabulary member named by the normal form; otherwise "invalid" quoting the original text |
| OrderServices.StatusVerdictDependsOnNormalForm | src/main/java/com/rodrigopettenon/cadastro_e_consulta/services/OrderService.java:61-69 | texts with the same normal form get the same status, or are both missing, or are both invalid |
| OrderServices.StatusIgnoresSpacesAndCase | src/main/java/com/rodrigopettenon/cadastro_e_consulta/services/OrderService.java:61-69 | inserting a space character, or upper-casing one ASCII letter, gives the same verdict: the same status, or missing in both, or invalid in both (each quoting its own text) |
| OrderServices.StatusNameRoundTrip | src/main/java/com/rodrigopettenon/cadastro_e_consulta/services/OrderService.java:62-63 | a validated status is accepted again, as itself, when given by its own name |
| OrderServices.StatusExamplePadded | src/main/java/com/rodrigopettenon/cadastro_e_consulta/services/OrderService.java:61-63 | "  pending " is PENDING when PENDING is a status |
| OrderServices.StatusExampleMixedCase | src/main/java/com/rodrigopettenon/cadastro_e_consulta/services/OrderService.java:61-63 | "PeNd InG" is PENDING when PENDING is a status |
| OrderServices.StatusExamplesMissing | src/main/java/com/rodrigopettenon/cadastro_e_consulta/services/OrderService.java:61-66 | null, empty and blank text are refused as missing |
| OrderServices.StatusExampleInvalid | src/main/java/com/rodrigopettenon/cadastro_e_consulta/services/OrderService.java:68-69 | BOGUS, when not a status, is refused as invalid quoting BOGUS |
| OrderServices.Admission | src/main/java/com/rodrigopettenon/cadastro_e_consulta/services/OrderService.java:35-37 | an order is admitted exactly when the client id is present and registered and the status valid; client errors take precedence, and for a registered client the verdict is exactly the status verdict |
| OrderServices.OrderIdCheck | src/main/java/com/rodrigopettenon/cadastro_e_consulta/services/OrderService.java:79-86 | an order id passes exactly when present and stored; otherwise "required" or "not registered" |
| OrderServices.OrderService.SaveOrder | src/main/java/com/rodrigopettenon/cadastro_e_consulta/services/OrderService.java:34-48 | a refusal reports the admission error, makes no order-store call, keeps the date and the store's identifier counter; an admission stamps now, fetches the client, saves client, date and status once under an identifier not stored before, and returns the store's reply |
| OrderServices.SaveOrderExample | src/main/java/com/rodrigopettenon/cadastro_e_consulta/services/OrderService.java:34-48 | with one registered client, an empty order store and PENDING a constant, "  pending " is admitted and saved for that client with the given date and status PENDING |
| OrderServices.OrderService.ValidateClientId | src/main/java/com/rodrigopettenon/cadastro_e_consulta/services/OrderService.java:50-57 | agrees with ClientIdCheck; a null id makes no client-store call, any other id exactly one existence check |
| OrderServices.OrderService.FindById | src/main/java/com/rodrigopettenon/cadastro_e_consulta/services/OrderService.java:73-77 | refuses as OrderIdCheck does; otherwise returns the stored order after exactly one existence check and one fetch |
| OrderServices.OrderService.ValidateId | src/main/java/com/rodrigopettenon/cadastro_e_consulta/services/OrderService.java:79-86 | agrees with OrderIdCheck; a null id makes no order-store call, any other id exactly one existence check |
| OrderServices.OrderService.FindFilteredOrders | src/main/java/com/rodrigopettenon/cadastro_e_consulta/services/OrderService.java:88-93 | one search call carrying the nine arguments in order; its page is returned unchanged |
| Repositories.ClientRepository.ExistsClientById | src/main/java/com/rodrigopettenon/cadastro_e_consulta/services/OrderService.java:54 | the existence check answers from the registered clients and is logged |
| Repositories.ClientRepository.FindClientModelById | src/main/java/com/rodrigopettenon/cadastro_e_consulta/services/OrderService.java:40 | the fetch returns the client stored under the id and is logged |
| Repositories.OrderRepository.SaveOrder | src/main/java/com/rodrigopettenon/cadastro_e_consulta/services/OrderService.java:47 | saving adds exactly one order, under the next generated identifier, and returns it carrying the model's client, date and status |
| Repositories.OrderRepository.ExistsOrderById | src/main/java/com/rodrigopettenon/cadastro_e_consulta/services/OrderService.java:83 | the existence check answers from the stored orders and is logged |
| Repositories.OrderRepository.FindOrderById | src/main/java/com/rodrigopettenon/cadastro_e_consulta/services/OrderService.java:76 | the fetch returns the order stored under the id and is logged |
| Repositories.OrderRepository.FindFilteredOrders | src/main/java/com/rodrigopettenon/cadastro_e_consulta/services/OrderService.java:92 | the search returns the store's page for the query and is logged |

## Left out

- JavaLang.UpperCaseOf: covers ASCII, Latin-1, dotless i, long s and the ligatures U+FB00..U+FB06, which are the lower-case characters whose upper case is ASCII. Every other character is kept unchanged, and locale-specific rules (Turkish dotted i) are not modelled.
- StringsValidation.RemoveAllSpaces: the code of `removeAllSpaces` is not modelled. It is assumed to delete the regular-expression class `\s`: space, tab, line feed, vertical tab, form feed and carriage return.
- The code of `ClientErrorException` is not modelled. It is assumed not to be an `IllegalArgumentException`, so the "status required" error passes the `catch` at src/main/java/com/rodrigopettenon/cadastro_e_consulta/services/OrderService.java:68 unchanged.
- The code of the `OrderStatus` enumeration is not modelled. It is assumed to declare plain constants, and the service takes their names as the set `orderStatuses`.
- Repositories.OrderRepository.SaveOrder: how the store generates identifiers is not modelled. The constant function `generateId` gives the identifier of the n-th save, and a save requires that identifier not to be stored yet: the store is assumed to generate fresh UUIDs, which the model states as a precondition rather than proves. The returned transfer object's fields are assumed to mirror the saved model.
- OrderServices.OrderService.SaveOrder: carries the same assumption, as a precondition that the store's next identifier is not stored yet; `SaveOrderExample` shows that it can be met.
- Repositories.OrderRepository.FindFilteredOrders: filtering, pagination, sort whitelisting and date ranges happen inside the store and are not modelled. The constant function `search` stands for the store's answer. It is fixed when the store is built and sees only the query, so the model does not capture that a search after `SaveOrder` may return a different page; no contract relies on search results changing or staying the same.
- Repositories.OrderRepository.FindOrderById: the `orders` map holds the very transfer objects that `SaveOrder` and `FindOrderById` hand out, so a caller's later setter call would change the stored order too. The real store returns a fresh copy built from its row; no contract relies on this aliasing.
- Store failures, such as a database error, are not modelled. Neither is the store's behaviour when a fetch follows a failed existence check.
- Spring wiring and transactions (`@Service`, `@Autowired`, `@Transactional`) are not modelled. Neither is a client being deleted concurrently between the existence check and the insert; each call runs alone here.
- `LocalDateTime.now()` is the parameter `now`. `LocalDateTime` is an integer instant.
- A null `orderDto` passed to `saveOrder` would raise a `NullPointerException`. It is not modelled, because Dafny object references are non-null.
- The new `OrderModel` filled by setters is modelled as a value: it is created in the method and handed to the store, and nothing else refers to it.
- Strings are sequences of Unicode code points, not UTF-16 code units. No whitespace character and no mapped character lies outside the Basic Multilingual Plane, so the checks above behave the same.
