# Tickio ticketing core in Dafny

Tickio is a Django ticketing site. Organisers create events (`Evento`) with
ticket types (`TicketType`: price, capacity, sold, active). Buyers fill a
session cart and check out: one database transaction that re-checks stock,
records order items, charges a payment gateway, marks the order paid and
issues one ticket per unit bought. This project models that core and proves
what it promises:

- `catalog.dfy`, `catalog_queries.dfy`: events and ticket types as values,
  with the model properties (`available`, `esta_agotado`,
  `min_ticket_price`, ...) and the repository queries over them.
- `order_models.dfy`: orders, order items, tickets, ticket holds; the
  `Booking` and `BookingItem` records whose methods update fields in place
  are classes.
- `store.dfy`: the database as one class whose tables are sequences; a row's
  id is its position.
- `checkout.dfy`: the order service. `CheckoutSpec` is a pure function of a
  `Ledger` snapshot; the imperative `Checkout` method (its loops, its
  rollback on failure) is proved to leave the database exactly as
  `CheckoutSpec` says. Stock, accounting and ticket-count properties are
  lemmas about `CheckoutSpec`.
- `order_queries.dfy`: ticket and hold repositories (`mark_as_used`,
  attendance statistics, hold queries and clean-up).
- `session_cart.dfy`: the cart views. The session's cart dictionary is an
  insertion-ordered sequence of entries with distinct ticket-type keys.
- `event_services.dfy`: event creation, the publish / pause / resume /
  cancel state machine, ticket-type creation and deactivation.
- `price_schemas.dfy`: the price validators of the pydantic event schema,
  over a model of Python `Decimal` values (finite, infinite, NaN).
- `price_cleanup.dfy`: the maintenance script that resets out-of-range
  prices and quantizes the rest to cents, as a loop over an array.
- `decimals.dfy`, `seqs.dfy`, `outcomes.dfy`: decimals with
  `quantize(Decimal('0.01'))` under ROUND_HALF_EVEN, sequence filters and
  sums, `Option`/`Result`.

Money in the store is an integer number of cents (every money column has
two decimal places). Clock readings (`timezone.now()`, `date.today()`) and
the payment gateway are parameters: `charge: PaymentRequest -> bool`
stands for the gateway's `charge` call.

## Model

| member | source | states |
|---|---|---|
| Decimals.Quantize2 | Tickio_project/cleanup_prices.py:40 | the result has exponent -2; it has the input's exact value when the input has at most two decimals, and is otherwise within half a cent of it, a tie going to the even cent (ROUND_HALF_EVEN) |
| Catalog.Available | Tickio_project/events/models.py:124-126 | tickets left are never negative, at least capacity minus sold, and either 0 or exactly capacity minus sold |
| Catalog.AvailableWithinCapacity | Tickio_project/events/models.py:115-126 | on a row meeting the table's CHECK constraints, tickets left never exceed capacity and are 0 exactly when sold reaches capacity |
| Catalog.EstaAgotado | Tickio_project/events/models.py:60-61 | an event is sold out exactly when its remaining seats are 0 (the column cannot be negative) |
| Catalog.HasTicketTypesIff | Tickio_project/events/models.py:63-65 | true exactly when some ticket type row points at the event |
| Catalog.TotalAvailable | Tickio_project/events/models.py:67-70 | without ticket types, the event's remaining seats; otherwise the tickets left summed over its active types; never negative |
| Catalog.MinPrice | Tickio_project/events/models.py:75-76 | `min(prices)` is one of the prices and no price is lower |
| Catalog.MinTicketPrice | Tickio_project/events/models.py:72-76 | with no active type the event's own price; otherwise the lowest price among the event's active types |
| Catalog.ActiveIsOfEvent | Tickio_project/events/models.py:73-76 | an event without ticket types has no active ticket types, so the early return agrees with the general branch |
| Catalog.SortByPrice | Tickio_project/events/models.py:81 | `order_by('price')` yields the same multiset of types, in non-decreasing price order |
| Catalog.GetAvailableTicketTypesSpec | Tickio_project/events/models.py:78-81 | a type is listed iff it belongs to the event, is active and has tickets left; the list is sorted by price |
| Catalog.GetTicketByNameSpec | Tickio_project/events/models.py:83-90 | the type returned is an active type of the event with that name (ASCII case-insensitive) and the cheapest such; nothing is returned only when there is none |
| CatalogQueries.FindById | Tickio_project/events/repositories.py:247-257 | present exactly for a valid id, and then the row with that id |
| CatalogQueries.FindActiveById | Tickio_project/orders/services.py:185-189 | present exactly for a valid id of an active type, and then that row |
| CatalogQueries.CheckAvailabilityMeaning | Tickio_project/events/repositories.py:278-294 | `CheckAvailability` is false for a missing id; otherwise true iff the tickets left cover the quantity asked for |
| CatalogQueries.CheckAvailabilityMonotone | Tickio_project/events/repositories.py:289-294 | if a quantity is available, so is every smaller one |
| CatalogQueries.GetTotalAvailability | Tickio_project/events/repositories.py:297-310 | the event's total of tickets left over all its types is never negative |
| CatalogQueries.TotalAvailableAtMostRepositoryTotal | Tickio_project/events/repositories.py:297-310 | the event model's `total_available` (active types) never exceeds the repository total (all types) |
| CatalogQueries.FindByEventSpec | Tickio_project/events/repositories.py:231-244 | lists exactly the event's active types, by price |
| CatalogQueries.FindWithAvailabilitySpec | Tickio_project/events/repositories.py:260-275 | lists exactly the event's active types with non-zero capacity, by price |
| CatalogQueries.AvailableTypesAreListedByRepository | Tickio_project/events/repositories.py:260-275 | every type the event model calls available is listed by the repository query |
| CatalogQueries.SoldOutTypeListedWithAvailability | Tickio_project/events/repositories.py:270-275 | a sold-out active type is still listed "with availability" |
| CatalogQueries.UnclampedAtMostClamped | Tickio_project/events/repositories.py:155-158 | the database sum capacity − sold never exceeds the sum of clamped availabilities |
| CatalogQueries.EventStatsSpec | Tickio_project/events/repositories.py:141-167 | `GetEventStats` gives nothing exactly for a missing event; otherwise `total_available` is capacity minus sold, at most the repository's clamped total, and equal to it when no type is oversold |
| CatalogQueries.EventStatsCanBeNegative | Tickio_project/events/repositories.py:156-158 | an oversold type makes `total_available` negative |
| OrderModels.NewOrder | Tickio_project/orders/models.py:37-48 | a new order is in status created, totals 0 and belongs to the user |
| OrderModels.GetTotalItemsNonNegative | Tickio_project/orders/models.py:62-64 | `GetTotalItems`, the item count of an order, is never negative when its quantities are not |
| OrderModels.Booking.constructor | Tickio_project/orders/models.py:107-132 | a new booking is pending and has no cancellation time |
| OrderModels.Booking.CanBeCancelled | Tickio_project/orders/models.py:146-148 | true iff the booking is pending or confirmed |
| OrderModels.Booking.Cancel | Tickio_project/orders/models.py:150-157 | from a cancellable status: cancelled, time recorded, success; otherwise nothing changes and failure |
| OrderModels.CancelTwice | Tickio_project/orders/models.py:150-157 | the second cancellation always fails and keeps the first cancellation's time |
| OrderModels.BookingItem.constructor | Tickio_project/orders/models.py:204-207 | subtotal is quantity times unit price |
| OrderModels.BookingItem.Save | Tickio_project/orders/models.py:204-207 | saving recomputes subtotal as quantity times unit price, whatever it held |
| OrderModels.ExpiryIsFinal | Tickio_project/orders/models.py:260-261 | `IsActive`: a hold expired at some instant stays expired afterwards |
| Checkout.ValidateTicketAvailability | Tickio_project/orders/services.py:44-49 | an error exactly when the quantity exceeds the tickets left |
| Checkout.ValidateCheckoutRequest | Tickio_project/orders/services.py:152-163 | the loop returns exactly what the sequential check `ValidateRequest` decides |
| Checkout.ValidateRequestSpec | Tickio_project/orders/services.py:152-163 | anonymous user or empty cart is rejected first; otherwise the error is the first unavailable line, and no error iff every line fits |
| Checkout.FirstUnavailableSpec | Tickio_project/orders/services.py:159-163 | reports the first line, in cart order, whose quantity exceeds its type's tickets left, and nothing iff every line fits |
| Checkout.CalculateTotalPrice | Tickio_project/orders/services.py:65-86 | the loop returns exactly the pure total |
| Checkout.TotalPriceSpec | Tickio_project/orders/services.py:65-86 | empty cart, non-positive quantity and unknown or inactive type are errors; otherwise the sum of price × quantity |
| Checkout.LineTotalsSpec | Tickio_project/orders/services.py:70-86 | line totals succeed iff every line is positive and names an active type, and then each total is its price × quantity |
| Checkout.TicketsFor | Tickio_project/orders/services.py:99-112 | every ticket made belongs to the order and the user and is unused |
| Checkout.CollectTickets | Tickio_project/orders/services.py:99-110 | the nested loops build exactly one ticket per unit of each item, in item order |
| Checkout.CreateTicketsForOrder | Tickio_project/orders/services.py:99-112 | appends exactly those tickets to the table and changes nothing else |
| Checkout.ReserveErrSticks | Tickio_project/orders/services.py:182-196 | once a prefix of the cart fails under the lock, the whole reservation fails with the same error |
| Checkout.ReserveLineTypes | Tickio_project/orders/services.py:193-201 | reserving one line adds its quantity to `sold` of that type only |
| Checkout.ReserveTypes | Tickio_project/orders/services.py:193-201 | a successful reservation adds to each type's `sold` the cart's quantity for it and changes no other column |
| Checkout.ReserveSameButSold | Tickio_project/orders/services.py:199-201 | a reservation keeps every type row except its `sold` |
| Checkout.ReserveLineItems | Tickio_project/orders/services.py:204-215 | one line adds one item for the order with the locked price and price × quantity |
| Checkout.ReserveItems | Tickio_project/orders/services.py:204-215 | a successful reservation yields one item per cart line, in order, with the row's price and price × quantity |
| Checkout.ReserveTotal | Tickio_project/orders/services.py:204-223 | the order total is the sum of the line totals |
| Checkout.ReserveWithinCapacity | Tickio_project/orders/services.py:193-201 | after a successful reservation no type has sold more than its capacity |
| Checkout.CreateOrderItems | Tickio_project/orders/services.py:179-223 | the loop leaves types and items exactly as the pure reservation says, or reports the same error |
| Checkout.Checkout | Tickio_project/orders/services.py:225-280 | the method leaves the database exactly as `CheckoutSpec` says, rolling back every write on failure, and keeps the database valid |
| Checkout.ItemsOfNewOrder | Tickio_project/orders/services.py:251-273 | the items of the fresh order are exactly those just recorded |
| Checkout.RefundBooking | Tickio_project/orders/services.py:321-325 | always succeeds; only that order's status changes, to refunded |
| Checkout.CheckoutFailureChangesNothing | Tickio_project/orders/services.py:225-280 | a failed checkout leaves every table as it was |
| Checkout.CheckoutRejectsEmptyOrAnonymous | Tickio_project/orders/services.py:152-156 | an anonymous user or an empty cart always fails, before anything is written |
| Checkout.CheckoutDeclined | Tickio_project/orders/services.py:259-265 | a declined payment makes the checkout fail |
| Checkout.CheckoutOk | Tickio_project/orders/services.py:247-275 | success means validation passed, the reservation succeeded, the payment was charged and the ledger took its new shape |
| Checkout.CheckoutSuccess | Tickio_project/orders/services.py:247-275 | on success one new paid order with the cart's total, its items appended, the charge for that total and the user's id, and its tickets appended |
| Checkout.CheckoutSuccessStock | Tickio_project/orders/services.py:193-201 | on success each type's `sold` grows by the cart's quantity for it |
| Checkout.CheckoutPreservesValid | Tickio_project/orders/services.py:225-280 | a checkout keeps every table valid |
| Checkout.TicketsForCounts | Tickio_project/orders/services.py:99-112 | as many tickets as the items' total quantity are made, and per type as many as that type's quantity |
| Checkout.CheckoutIssuesOneTicketPerUnit | Tickio_project/orders/services.py:268-273 | on success the tickets issued number the order's items, the cart's total quantity, and per type the units bought of it |
| Checkout.CheckoutPreservesAccounting | Tickio_project/orders/services.py:193-201 | if every type has issued at most `sold` tickets and sold at most its capacity, that still holds after any checkout |
| Checkout.TotalPriceMatchesCheckout | Tickio_project/orders/services.py:204-223 | when both succeed, the order total equals `calculate_total_price` for the same cart |
| Checkout.PrecheckDecidesSequentially | Tickio_project/orders/services.py:159-163 | for a cart of distinct active types within capacity, a passing pre-check implies the locked re-check and recording pass |
| Checkout.ReserveSucceeds | Tickio_project/orders/services.py:182-201 | a cart of distinct active types that passes the pre-check reserves successfully |
| Checkout.ZeroQuantityLineIsCheckedOut | Tickio_project/orders/services.py:190-215 | a quantity-0 line is checked out into a paid order of amount 0 with a zero item and no ticket, while `calculate_total_price` refuses it |
| Checkout.PrecheckIsNotAuthoritative | Tickio_project/orders/services.py:159-196 | a cart naming one type twice passes the pre-check and fails the locked re-check |
| Checkout.InactiveTypePassesPrecheck | Tickio_project/orders/services.py:159-189 | the pre-check accepts an inactive type that the locked lookup then rejects |
| OrderQueries.MarkAsUsed | Tickio_project/orders/repositories.py:252-267 | succeeds iff the code exists and is unused; then only that ticket becomes used, otherwise nothing changes; the stock ledger stays accounted |
| OrderQueries.MarkTwice | Tickio_project/orders/repositories.py:262-267 | marking the same ticket twice fails the second time, and the ticket ends used |
| OrderQueries.GetEventAttendanceStats | Tickio_project/orders/repositories.py:280-292 | total tickets of paid orders for the event split exactly into used and unused |
| OrderQueries.HoldsPartition | Tickio_project/orders/repositories.py:321-342 | `FindActiveHolds` and `FindExpiredHolds` together are the table, as a multiset; every listed active hold is live and every expired one is not |
| OrderQueries.FindBySessionSpec | Tickio_project/orders/repositories.py:345-358 | exactly the live holds of the session |
| OrderQueries.FindByTicketTypeSpec | Tickio_project/orders/repositories.py:361-374 | exactly the live holds of the type |
| OrderQueries.GetTotalHeldQuantitySpec | Tickio_project/orders/repositories.py:377-392 | the sum of the quantities of the type's live holds, and 0 when there are none |
| OrderQueries.CleanupExpiredHolds | Tickio_project/orders/repositories.py:395-406 | the table keeps exactly the live holds, in order, and the count is the number of expired holds removed |
| OrderQueries.CleanupKeepsLiveView | Tickio_project/orders/repositories.py:395-406 | after clean-up the session query and the held total answer as before, and nothing expired remains |
| SessionCart.ClampTo | Tickio_project/orders/views.py:44-45 | the quantity, capped at the tickets left, never above either |
| SessionCart.ParseQuantity | Tickio_project/orders/views.py:28-32 | a missing or non-integer field, or an integer below 1, becomes 1; any other integer is kept |
| SessionCart.AddLineSpec | Tickio_project/orders/views.py:39-54 | an existing line adds the quantity, capped at the tickets left, and keeps its place; a new line is appended; other keys unchanged |
| SessionCart.RemoveKeySpec | Tickio_project/orders/views.py:66-69 | the key is gone, every other key is unchanged and keys stay distinct |
| SessionCart.AddThenRemove | Tickio_project/orders/views.py:42-69 | adding a new type and then removing it restores the cart |
| SessionCart.StepLineKeepsShape | Tickio_project/orders/views.py:145-153 | `StepLine` deletes the stepped line when its quantity would drop below 1 and otherwise sets it to the new quantity capped at the tickets left; keys stay distinct, quantities non-negative, other keys unchanged |
| SessionCart.TotalQuantityIsTicketCount | Tickio_project/orders/views.py:97-98 | `TotalQuantity`, the cart badge count, is the number of tickets a checkout would issue |
| SessionCart.CartTotalMatchesTotalPrice | Tickio_project/orders/views.py:79-83 | `CartTotal`, the cart page total, equals the service's total price for a cart of active types at current prices |
| SessionCart.Session.constructor | Tickio_project/orders/views.py:17-22 | a new session has no cart |
| SessionCart.Session.GetCart | Tickio_project/orders/views.py:17-22 | afterwards the session holds a cart |
| SessionCart.Session.AddToCart | Tickio_project/orders/views.py:26-60 | unknown or inactive type: nothing changes; sold out: nothing added; otherwise the cart takes the `AddLine` shape and the count is its total quantity |
| SessionCart.Session.RemoveFromCart | Tickio_project/orders/views.py:64-72 | the key is removed and the count is the new total quantity |
| SessionCart.Session.UpdateQuantity | Tickio_project/orders/views.py:133-156 | missing id or bad delta: ignored; line not in the cart or type gone: the cart is unchanged; otherwise the line takes the ±1 `StepLine` shape |
| SessionCart.Session.CartView | Tickio_project/orders/views.py:75-94 | the page lists each line with its subtotal and the sum of the subtotals |
| SessionCart.Session.CheckoutView | Tickio_project/orders/views.py:101-129 | anonymous user, empty cart or GET change nothing; POST runs the checkout on the cart's lines, and the cart is cleared exactly when it succeeds |
| SessionCart.StepCanLeaveZero | Tickio_project/orders/views.py:147-153 | a +1 step on a line of quantity 0 with nothing left keeps a line of quantity 0 |
| SessionCart.StepDownFromOneRemoves | Tickio_project/orders/views.py:147-149 | a -1 step on a line of quantity 1 removes it |
| EventServices.CreateEventAsWrittenNeverCreates | Tickio_project/events/services.py:58-67 | as written, event creation never succeeds |
| EventServices.CreateEvent | Tickio_project/events/services.py:27-69 | past date, unknown category and a negative seat count are errors with nothing written; otherwise one draft event with the given price is appended |
| EventServices.HasActiveTicketTypeIff | Tickio_project/events/services.py:93-94 | true iff some type of the event is active |
| EventServices.StepSpec | Tickio_project/events/services.py:72-175 | the guard of each transition and the state it reaches; cancelling always returns to draft; pausing then resuming restores a published event; publishing a paused event equals resuming it |
| EventServices.ApplyTransition | Tickio_project/events/services.py:72-175 | a missing event is an error; otherwise the event's state changes as the state machine says and nothing else does |
| EventServices.PublishEvent | Tickio_project/events/services.py:72-100 | needs a draft or paused event with an active type; then published, else an error with nothing changed |
| EventServices.PauseEvent | Tickio_project/events/services.py:103-126 | needs a published event; then paused |
| EventServices.ResumeEvent | Tickio_project/events/services.py:129-152 | needs a paused event; then published |
| EventServices.CancelEvent | Tickio_project/events/services.py:155-175 | any existing event goes back to draft; a missing one is an error |
| EventServices.CreateTicketType | Tickio_project/events/services.py:238-278 | missing event, negative price and non-positive capacity are errors; otherwise one active type with nothing sold is appended, its tickets left equal to its capacity |
| EventServices.DeactivateTicketType | Tickio_project/events/services.py:281-301 | a missing type is an error; otherwise only that type's `active` becomes false |
| PriceSchemas.ValidatePriceSpec | Tickio_project/events/schemas/evento_schema.py:26-38 | `ValidatePrice` raises exactly on unparsable text and NaN; otherwise never negative; None becomes 0.00; a negative number becomes 0.00 and a non-negative one passes unchanged |
| PriceSchemas.ValidatePriceIdempotent | Tickio_project/events/schemas/evento_schema.py:28-38 | validating a validated price changes nothing |
| PriceSchemas.ValidatePreciosAgrees | Tickio_project/events/schemas/evento_schema.py:131-143 | the optional-price validator agrees with the price validator except that None stays None |
| PriceSchemas.UnparsablePriceRaises | Tickio_project/events/schemas/evento_schema.py:32-38 | unparsable text and NaN raise instead of becoming 0.00 |
| PriceSchemas.ValidatePriceIntended | Tickio_project/events/schemas/evento_schema.py:28-38 | corrected validator: never raises and every result is non-negative |
| PriceSchemas.ValidatePreciosIntended | Tickio_project/events/schemas/evento_schema.py:133-143 | corrected optional validator: a present result is non-negative |
| PriceSchemas.ValidatorsIntendedSpec | Tickio_project/events/schemas/evento_schema.py:28-38 | the corrected validators agree with the originals wherever those return, turn unparsable text and NaN into the fallback, and are idempotent |
| PriceSchemas.SchemaAvailable | Tickio_project/events/schemas/evento_schema.py:40-42 | the schema's `available` is never negative |
| PriceSchemas.SchemaAvailableAgrees | Tickio_project/events/schemas/evento_schema.py:40-42 | the schema's `available` equals the model's |
| PriceCleanup.QuantizeStaysInRange | Tickio_project/cleanup_prices.py:38-40 | quantizing a price that passed the range check keeps it in range |
| PriceCleanup.DefaultsInRange | Tickio_project/cleanup_prices.py:31-34 | both fallback prices are in range and have cents |
| PriceCleanup.CleanPriceSpec | Tickio_project/cleanup_prices.py:29-42 | `CleanPrice`: out of range, the fallback; otherwise quantized to cents; the result is in range with cents; it changes iff cleaning was needed; cleaning twice is cleaning once |
| PriceCleanup.BoundaryPriceIsReset | Tickio_project/cleanup_prices.py:31-34 | 999999.995 fails the range check and is reset rather than rounded up |
| PriceCleanup.CountIsChanged | Tickio_project/cleanup_prices.py:26-45 | the number of prices needing cleanup is the number the cleanup changes |
| PriceCleanup.CleanAllIdempotent | Tickio_project/cleanup_prices.py:29-42 | running the clean-up twice is running it once |
| PriceCleanup.CleanupPrices | Tickio_project/cleanup_prices.py:24-45 | the loop updates every price in place as `CleanAll` says and returns how many needed cleaning |
| PriceCleanup.CleanupEventoPrices | Tickio_project/cleanup_prices.py:24-45 | event prices are cleaned with the 50.00 fallback; the count is the rows changed; every price ends in range |
| PriceCleanup.CleanupTicketPrices | Tickio_project/cleanup_prices.py:47-67 | ticket prices are cleaned with the 25.00 fallback; the count is the rows changed; every price ends in range |

`validate_precio` appears twice in `evento_schema.py` (lines 58-70 and
92-104) with the same body as `validate_price`. `PriceSchemas.ValidatePrice`
models all three.

## Left out

- HTTP rendering, redirects, flash messages, templates, admin and URL routing: these are not logic; the views are modelled by what they do to the session and the database.
- Ticket codes are UUIDs; the model uses the ticket's position in its table, which is just as unique.
- `timezone.now()` and `date.today()` are parameters. The payment gateway is the `charge` parameter; its transaction reference is not modelled. `process_payment`, a second wrapper around the same gateway call that checkout does not use, is not modelled.
- `Booking.get_items_count`: a related-manager count with no logic of its own.
- Floating-point results (`attendance_rate`, `occupancy_percentage`) are not modelled; only the integer counts are.
- Row locking (`select_for_update`) and concurrent transactions: the model runs one request at a time. `PrecheckIsNotAuthoritative` shows where the locked re-check still matters for a caller of the service that passes a cart naming one type twice; a cart built by the views cannot, because its keys are the ticket-type ids.
- Checkout.TotalPrice, Checkout.ValidateCheckoutRequest, Checkout.CreateOrderItems: a cart line always holds an integer id and an integer quantity. Entries with a missing or non-integer field, the `.get(..., 0)` defaults, and the `KeyError`/`ValueError` paths they lead to are not modelled. The views only ever write well-formed entries.
- Exceptions other than `ValueError` and `TypeError` raised by a value's `str()` inside the price validators; they escape the validator and are not modelled.
- Pydantic's own finite-number checks that run after the validators, the sign of a zero, the decimal context's precision and Unicode case folding in `iexact` (the model folds ASCII only).
- Descriptive fields (`descripcion`, `lugar`, `fecha_creacion`, `notes`, ...), the schema field plumbing and `print_evento_summary` carry no logic.
- PriceCleanup.CleanupPrices: one price column is an array of decimals; the row iteration, the `save()` per row and the print-out are not modelled.
- SessionCart.Session: the session dictionary is a sequence with distinct keys kept in insertion order; the JSON serialisation of the session is not modelled.
- Checkout.CheckoutSpec, Checkout.ReserveLine, Checkout.RecordItems, EventServices.CreateTicketType, EventServices.CreateEvent: the precision of the money columns is not modelled. `price` and `precio` hold at most 10 digits and `line_total` and `total_amount` at most 12, all with two decimals. The model accepts any integer amount of cents. A line total such as 100000.00 × 100000 = 10,000,000,000.00 therefore succeeds in the model. On PostgreSQL the insert fails with a numeric overflow and the checkout rolls back; SQLite stores the value. What happens depends on the database backend.
- SessionCart.Session.RemoveFromCart, SessionCart.Session.UpdateQuantity: the posted `ticket_type_id` is taken to be the canonical decimal text of an integer, or absent. The views compare the raw text with the cart keys, which `add_to_cart` writes as `str(ticket_type.id)`. Non-canonical text such as "07" matches no key in the source, while the model reads it as 7. An empty string in `update_quantity` is not `None`, so the source stores an empty cart first; the model treats it as absent.
- SessionCart.Session.CheckoutView: `checkout` raises a `ValidationError`, which is not a `ValueError`, so the view's `except ValueError` does not catch it and the request ends in a server error. The model reports `CheckoutFailed`; the session cart and the database stay as they were.
- Ticket holds are never created anywhere in the code, and availability ignores them; the model does the same.
- Checkout.RefundBooking: a refund gives no stock back and keeps the tickets issued, as in the code; the placeholder never talks to the gateway.

## Findings

| source | as written | input that shows it | evidently intended | confidence | as-written member | corrected member |
|---|---|---|---|---|---|---|
| Tickio_project/events/schemas/evento_schema.py:32-38 | `Decimal(str(v))` and `< 0` are guarded by `except (ValueError, TypeError)`, but both raise `decimal.InvalidOperation`, an `ArithmeticError` | the text `"abc"` or `Decimal('NaN')` | unparsable prices become 0.00, as the handler's fallback says | high, not executed | PriceSchemas.UnparsablePriceRaises | PriceSchemas.ValidatorsIntendedSpec |
| Tickio_project/events/services.py:58-67 | `Evento.objects.create(...)` is given no `precio`, a non-null decimal column without default | any future date with an existing category | a draft event is created | high, not executed | EventServices.CreateEventAsWrittenNeverCreates | EventServices.CreateEvent |
