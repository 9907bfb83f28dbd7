/** Checkout (orders/services.py): validation, pricing, stock reservation,
    payment and ticket issuance, all-or-nothing.

    `CheckoutSpec` states what one checkout does to the tables; the methods
    `ValidateCheckoutRequest`, `CalculateTotalPrice`, `CreateOrderItems`,
    `CreateTicketsForOrder` and `Checkout` follow the source's loops and are
    proved against it. */
module Checkout {
  import opened Outcomes
  import opened Seqs
  import opened Catalog
  import opened CatalogQueries
  import opened OrderModels
  import opened Store

  datatype User = Anonymous | Authenticated(id: int)

  /** One entry of the session cart as checkout reads it. Both fields are
      integers, as the views always write them; entries with a missing or
      non-integer field are not represented. */
  datatype CartLine = CartLine(ticketTypeId: int, quantity: int)

  /** Why a checkout is refused; every refusal rolls the transaction back. */
  datatype CheckoutError =
    | EmptyCart
    | NotAuthenticated
    | NotEnoughTickets(ticketTypeId: int, requested: int)
    | InvalidQuantity(ticketTypeId: int)
    | TicketTypeNotFound(ticketTypeId: int)
    | InsufficientStock(ticketTypeId: int)
    | IntegrityViolation
    | PaymentDeclined

  /** What the payment gateway is asked to charge. */
  datatype PaymentRequest = PaymentRequest(amount: int, orderId: int, userId: int)

  // ---- Validation ----

  /** `TicketService.validate_ticket_availability`: passes exactly when the
      type exists and the quantity is not positive or fits in its capacity. */
  function ValidateTicketAvailability(types: seq<TicketType>, ticketTypeId: int, quantity: int): (r: Result<bool, CheckoutError>)
    ensures r.Ok? <==>
      0 <= ticketTypeId < |types| &&
      (quantity <= 0 || types[ticketTypeId].sold + quantity <= types[ticketTypeId].capacity)
    ensures r.Err? ==> r.error == NotEnoughTickets(ticketTypeId, quantity)
  {
    CheckAvailabilityMeaning(types, ticketTypeId, quantity);
    if CheckAvailability(types, ticketTypeId, quantity) then Ok(true)
    else Err(NotEnoughTickets(ticketTypeId, quantity))
  }

  /** The first cart line whose pre-check fails, as the error it raises. */
  function FirstUnavailable(types: seq<TicketType>, cart: seq<CartLine>): Option<CheckoutError>
  {
    if cart == [] then None
    else match ValidateTicketAvailability(types, cart[0].ticketTypeId, cart[0].quantity)
      case Err(e) => Some(e)
      case Ok(_) => FirstUnavailable(types, cart[1..])
  }

  /** What `validate_checkout_request` raises, if anything. */
  function ValidateRequest(types: seq<TicketType>, cart: seq<CartLine>, user: User): Option<CheckoutError>
  {
    if cart == [] then Some(EmptyCart)
    else if user.Anonymous? then Some(NotAuthenticated)
    else FirstUnavailable(types, cart)
  }

  /** `OrderService.validate_checkout_request`. */
  method ValidateCheckoutRequest(types: seq<TicketType>, cart: seq<CartLine>, user: User) returns (err: Option<CheckoutError>)
    ensures err == ValidateRequest(types, cart, user)
  {
    if cart == [] {
      return Some(EmptyCart);
    }
    if user.Anonymous? {
      return Some(NotAuthenticated);
    }
    var i := 0;
    while i < |cart|
      invariant 0 <= i <= |cart|
      invariant FirstUnavailable(types, cart) == FirstUnavailable(types, cart[i..])
    {
      var checked := ValidateTicketAvailability(types, cart[i].ticketTypeId, cart[i].quantity);
      if checked.Err? {
        return Some(checked.error);
      }
      assert cart[i..][1..] == cart[i + 1..];
      i := i + 1;
    }
    err := None;
  }

  /** The request passes validation exactly when the cart is not empty, the
      user is logged in and every line passes the availability pre-check. */
  lemma ValidateRequestSpec(types: seq<TicketType>, cart: seq<CartLine>, user: User)
    ensures ValidateRequest(types, cart, user).None? <==>
      cart != [] && user.Authenticated? &&
      forall j :: 0 <= j < |cart| ==> CheckAvailability(types, cart[j].ticketTypeId, cart[j].quantity)
  {
    FirstUnavailableSpec(types, cart);
  }

  lemma {:induction false} FirstUnavailableSpec(types: seq<TicketType>, cart: seq<CartLine>)
    ensures FirstUnavailable(types, cart).None? <==>
      forall j :: 0 <= j < |cart| ==> CheckAvailability(types, cart[j].ticketTypeId, cart[j].quantity)
  {
    if cart != [] {
      FirstUnavailableSpec(types, cart[1..]);
      assert forall j :: 1 <= j < |cart| ==> cart[1..][j - 1] == cart[j];
      CheckAvailabilityMeaning(types, cart[0].ticketTypeId, cart[0].quantity);
    }
  }

  // ---- Pricing ----

  /** `calculate_total_price` over a non-empty cart: the first line with a
      non-positive quantity or no active ticket type is the error; otherwise
      the sum of price times quantity. */
  function LineTotals(types: seq<TicketType>, cart: seq<CartLine>): Result<int, CheckoutError>
  {
    if cart == [] then Ok(0)
    else if cart[0].quantity <= 0 then Err(InvalidQuantity(cart[0].ticketTypeId))
    else match FindActiveById(types, cart[0].ticketTypeId)
      case None => Err(TicketTypeNotFound(cart[0].ticketTypeId))
      case Some(t) =>
        match LineTotals(types, cart[1..])
        case Err(e) => Err(e)
        case Ok(rest) => Ok(t.price * cart[0].quantity + rest)
  }

  function TotalPrice(types: seq<TicketType>, cart: seq<CartLine>): Result<int, CheckoutError>
  {
    if cart == [] then Err(EmptyCart) else LineTotals(types, cart)
  }

  function AddTo(r: Result<int, CheckoutError>, amount: int): Result<int, CheckoutError>
  {
    match r
    case Err(e) => Err(e)
    case Ok(v) => Ok(amount + v)
  }

  /** `TicketService.calculate_total_price`. */
  method CalculateTotalPrice(types: seq<TicketType>, cart: seq<CartLine>) returns (r: Result<int, CheckoutError>)
    ensures r == TotalPrice(types, cart)
  {
    if cart == [] {
      return Err(EmptyCart);
    }
    var total := 0;
    var i := 0;
    while i < |cart|
      invariant 0 <= i <= |cart|
      invariant TotalPrice(types, cart) == AddTo(LineTotals(types, cart[i..]), total)
    {
      var line := cart[i];
      if line.quantity <= 0 {
        return Err(InvalidQuantity(line.ticketTypeId));
      }
      var found := FindActiveById(types, line.ticketTypeId);
      if found.None? {
        return Err(TicketTypeNotFound(line.ticketTypeId));
      }
      total := total + found.value.price * line.quantity;
      assert cart[i..][1..] == cart[i + 1..];
      i := i + 1;
    }
    r := Ok(total);
  }

  /** Price of one line at the current catalogue prices. */
  function LinePrice(types: seq<TicketType>): CartLine -> int
  {
    (line: CartLine) =>
      if 0 <= line.ticketTypeId < |types| then types[line.ticketTypeId].price * line.quantity else 0
  }

  /** The total is computed exactly when the cart is non-empty and every line
      has a positive quantity and an active ticket type; it is then the sum
      of price times quantity over the cart. */
  lemma {:induction false} TotalPriceSpec(types: seq<TicketType>, cart: seq<CartLine>)
    ensures TotalPrice(types, cart).Ok? <==>
      cart != [] &&
      forall j :: 0 <= j < |cart| ==>
        cart[j].quantity > 0 && 0 <= cart[j].ticketTypeId < |types| && types[cart[j].ticketTypeId].active
    ensures TotalPrice(types, cart).Ok? ==> TotalPrice(types, cart).value == SumOf(cart, LinePrice(types))
  {
    if cart != [] {
      LineTotalsSpec(types, cart);
    }
  }

  lemma {:induction false} LineTotalsSpec(types: seq<TicketType>, cart: seq<CartLine>)
    ensures LineTotals(types, cart).Ok? <==>
      forall j :: 0 <= j < |cart| ==>
        cart[j].quantity > 0 && 0 <= cart[j].ticketTypeId < |types| && types[cart[j].ticketTypeId].active
    ensures LineTotals(types, cart).Ok? ==> LineTotals(types, cart).value == SumOf(cart, LinePrice(types))
  {
    if cart != [] {
      LineTotalsSpec(types, cart[1..]);
      assert forall j :: 1 <= j < |cart| ==> cart[1..][j - 1] == cart[j];
    }
  }

  // ---- Reservation ----

  /** The state `create_order_items` builds up: the ticket types with their
      `sold` counters, the items to insert and the running total. */
  datatype Reservation = Reservation(types: seq<TicketType>, items: seq<OrderItem>, total: int)

  /** The item recorded for a cart line, with the type's price and name
      copied at purchase time. */
  function ItemFor(orderId: int, line: CartLine, t: TicketType): OrderItem
  {
    OrderItem(orderId, t.eventId, line.ticketTypeId, t.name, t.price, line.quantity, t.price * line.quantity)
  }

  /** One iteration of `create_order_items`: look the type up among the
      active ones, re-check the stock, bump `sold` and record the item.
      A `sold` the update would drive below zero violates the column's
      CHECK constraint. */
  function ReserveLine(r: Reservation, orderId: int, line: CartLine): Result<Reservation, CheckoutError>
  {
    match FindActiveById(r.types, line.ticketTypeId)
    case None => Err(TicketTypeNotFound(line.ticketTypeId))
    case Some(t) =>
      if t.sold + line.quantity > t.capacity then Err(InsufficientStock(line.ticketTypeId))
      else if t.sold + line.quantity < 0 then Err(IntegrityViolation)
      else
        var item := ItemFor(orderId, line, t);
        Ok(Reservation(
          r.types[line.ticketTypeId := t.(sold := t.sold + line.quantity)],
          r.items + [item],
          r.total + item.lineTotal))
  }

  /** The loop of `create_order_items` over the cart in order. */
  function Reserve(types: seq<TicketType>, orderId: int, cart: seq<CartLine>): Result<Reservation, CheckoutError>
  {
    if cart == [] then Ok(Reservation(types, [], 0))
    else match Reserve(types, orderId, cart[..|cart| - 1])
      case Err(e) => Err(e)
      case Ok(r) => ReserveLine(r, orderId, cart[|cart| - 1])
  }

  /** The quantity column's CHECK constraint rejects the bulk insert. */
  predicate HasNegativeQuantity(items: seq<OrderItem>)
  {
    exists j :: 0 <= j < |items| && items[j].quantity < 0
  }

  /** `create_order_items` as a whole: the reservation, unless the bulk
      insert of its items is rejected. */
  function RecordItems(types: seq<TicketType>, orderId: int, cart: seq<CartLine>): Result<Reservation, CheckoutError>
  {
    match Reserve(types, orderId, cart)
    case Err(e) => Err(e)
    case Ok(res) => if HasNegativeQuantity(res.items) then Err(IntegrityViolation) else Ok(res)
  }

  // ---- Tickets ----

  /** `n` copies of `x` (none when `n` is not positive). */
  function Repeat<T>(x: T, n: int): (r: seq<T>)
    ensures |r| == if n <= 0 then 0 else n
    ensures forall i :: 0 <= i < |r| ==> r[i] == x
  {
    if n <= 0 then [] else Repeat(x, n - 1) + [x]
  }

  /** The ticket issued for one unit of `item`; not yet used. */
  function TicketFor(orderId: int, userId: int, item: OrderItem): Ticket
  {
    Ticket(orderId, item.ticketTypeId, userId, item.eventId, false)
  }

  /** The tickets `create_tickets_for_order` issues for the order's items:
      `quantity` of them per item, in item order. */
  function TicketsFor(orderId: int, userId: int, items: seq<OrderItem>): (r: seq<Ticket>)
    ensures forall i :: 0 <= i < |r| ==> r[i].orderId == orderId && r[i].userId == userId && !r[i].isUsed
  {
    if items == [] then []
    else TicketsFor(orderId, userId, items[..|items| - 1]) + Repeat(TicketFor(orderId, userId, items[|items| - 1]), items[|items| - 1].quantity)
  }

  // ---- Checkout ----

  /** The result and the tables after one checkout. */
  datatype CheckoutOutcome = CheckoutOutcome(result: Result<int, CheckoutError>, ledger: Ledger)

  /** `OrderService.checkout` under `@transaction.atomic`: on any error the
      tables are as before; on success a paid order with the reserved items
      and one ticket per unit is added and its id returned. */
  function CheckoutSpec(db: Ledger, cart: seq<CartLine>, user: User, charge: PaymentRequest -> bool): CheckoutOutcome
  {
    match ValidateRequest(db.types, cart, user)
    case Some(e) => CheckoutOutcome(Err(e), db)
    case None =>
      var orderId := |db.orders|;
      match RecordItems(db.types, orderId, cart)
      case Err(e) => CheckoutOutcome(Err(e), db)
      case Ok(res) =>
        if !charge(PaymentRequest(res.total, orderId, user.id)) then CheckoutOutcome(Err(PaymentDeclined), db)
        else CheckoutOutcome(Ok(orderId), Ledger(
          res.types,
          db.orders + [Order(user.id, Paid, res.total)],
          db.items + res.items,
          db.tickets + TicketsFor(orderId, user.id, res.items)))
  }

  // ---- Properties of the reservation ----

  /** Quantity the cart asks of ticket type `k`. */
  function QuantityIfType(k: int): CartLine -> int
  {
    (line: CartLine) => if line.ticketTypeId == k then line.quantity else 0
  }

  /** Once a prefix of the cart fails, the whole cart fails with the same
      error: later lines are never reached. */
  lemma {:induction false} ReserveErrSticks(types: seq<TicketType>, orderId: int, cart: seq<CartLine>, j: int, e: CheckoutError)
    requires 0 <= j <= |cart|
    requires Reserve(types, orderId, cart[..j]) == Err(e)
    ensures Reserve(types, orderId, cart) == Err(e)
    decreases |cart| - j
  {
    if j < |cart| {
      assert cart[..j + 1][..j] == cart[..j];
      ReserveErrSticks(types, orderId, cart, j + 1, e);
    } else {
      assert cart[..j] == cart;
    }
  }

  /** One accepted line raises its own type's `sold` by its quantity and
      leaves every other type as it was. */
  lemma ReserveLineTypes(r: Reservation, orderId: int, line: CartLine)
    requires TypesValid(r.types)
    requires ReserveLine(r, orderId, line).Ok?
    ensures var n := ReserveLine(r, orderId, line).value;
      && TypesValid(n.types) && |n.types| == |r.types|
      && (forall k :: 0 <= k < |r.types| ==>
            n.types[k] == r.types[k].(sold := r.types[k].sold + QuantityIfType(k)(line)))
  {
  }

  /** A successful reservation raises each type's `sold` by exactly the
      quantity the cart asks of it and changes nothing else about the
      types. */
  lemma {:induction false} ReserveTypes(types: seq<TicketType>, orderId: int, cart: seq<CartLine>)
    requires TypesValid(types)
    requires Reserve(types, orderId, cart).Ok?
    ensures var res := Reserve(types, orderId, cart).value;
      && TypesValid(res.types) && |res.types| == |types|
      && (forall k :: 0 <= k < |types| ==>
            res.types[k] == types[k].(sold := types[k].sold + SumOf(cart, QuantityIfType(k))))
  {
    if cart != [] {
      var init, line := cart[..|cart| - 1], cart[|cart| - 1];
      assert cart == init + [line];
      ReserveTypes(types, orderId, init);
      var prev := Reserve(types, orderId, init).value;
      assert Reserve(types, orderId, cart) == ReserveLine(prev, orderId, line);
      ReserveLineTypes(prev, orderId, line);
      forall k | 0 <= k < |types|
        ensures SumOf(cart, QuantityIfType(k)) == SumOf(init, QuantityIfType(k)) + QuantityIfType(k)(line)
      {
        SumOfSnoc(init, line, QuantityIfType(k));
      }
    }
  }

  /** Two versions of the ticket-type table that differ at most in `sold`. */
  predicate SameButSold(a: seq<TicketType>, b: seq<TicketType>)
  {
    |a| == |b| && forall k :: 0 <= k < |a| ==> a[k] == b[k].(sold := a[k].sold)
  }

  /** A reservation only ever changes `sold`. */
  lemma {:induction false} ReserveSameButSold(types: seq<TicketType>, orderId: int, cart: seq<CartLine>)
    requires Reserve(types, orderId, cart).Ok?
    ensures SameButSold(Reserve(types, orderId, cart).value.types, types)
  {
    if cart != [] {
      var init := cart[..|cart| - 1];
      ReserveSameButSold(types, orderId, init);
    }
  }

  /** One accepted line appends the item for its type, which is active. */
  lemma ReserveLineItems(r: Reservation, orderId: int, line: CartLine)
    requires ReserveLine(r, orderId, line).Ok?
    ensures 0 <= line.ticketTypeId < |r.types| && r.types[line.ticketTypeId].active
    ensures ReserveLine(r, orderId, line).value.items == r.items + [ItemFor(orderId, line, r.types[line.ticketTypeId])]
  {
  }

  /** A successful reservation records one item per line, in order, each
      naming an active type with that type's name and price copied and
      `line_total = price * quantity`. */
  lemma {:induction false} ReserveItems(types: seq<TicketType>, orderId: int, cart: seq<CartLine>)
    requires TypesValid(types)
    requires Reserve(types, orderId, cart).Ok?
    ensures var res := Reserve(types, orderId, cart).value;
      && |res.items| == |cart|
      && (forall j :: 0 <= j < |cart| ==>
            0 <= cart[j].ticketTypeId < |types| && types[cart[j].ticketTypeId].active &&
            res.items[j] == ItemFor(orderId, cart[j], types[cart[j].ticketTypeId]))
  {
    if cart != [] {
      var init, line := cart[..|cart| - 1], cart[|cart| - 1];
      ReserveItems(types, orderId, init);
      ReserveSameButSold(types, orderId, init);
      var prev := Reserve(types, orderId, init).value;
      assert Reserve(types, orderId, cart) == ReserveLine(prev, orderId, line);
      ReserveLineItems(prev, orderId, line);
      var id := line.ticketTypeId;
      assert ItemFor(orderId, line, prev.types[id]) == ItemFor(orderId, line, types[id]);
      var res := Reserve(types, orderId, cart).value;
      forall j | 0 <= j < |cart|
        ensures 0 <= cart[j].ticketTypeId < |types| && types[cart[j].ticketTypeId].active
        ensures res.items[j] == ItemFor(orderId, cart[j], types[cart[j].ticketTypeId])
      {
        if j < |init| {
          assert cart[j] == init[j];
          assert res.items[j] == prev.items[j];
        }
      }
    }
  }

  /** The returned total is the sum of the recorded line totals. */
  lemma {:induction false} ReserveTotal(types: seq<TicketType>, orderId: int, cart: seq<CartLine>)
    requires Reserve(types, orderId, cart).Ok?
    ensures var res := Reserve(types, orderId, cart).value;
      res.total == SumOf(res.items, LineTotalOf)
  {
    if cart != [] {
      var init := cart[..|cart| - 1];
      ReserveTotal(types, orderId, init);
      var prev := Reserve(types, orderId, init).value;
      var res := Reserve(types, orderId, cart).value;
      SumOfSnoc(prev.items, res.items[|res.items| - 1], LineTotalOf);
      assert res.items == prev.items + [res.items[|res.items| - 1]];
    }
  }

  /** The authoritative re-check keeps every type within its capacity. */
  lemma {:induction false} ReserveWithinCapacity(types: seq<TicketType>, orderId: int, cart: seq<CartLine>)
    requires forall k :: 0 <= k < |types| ==> types[k].sold <= types[k].capacity
    requires Reserve(types, orderId, cart).Ok?
    ensures var res := Reserve(types, orderId, cart).value;
      |res.types| == |types| &&
      forall k :: 0 <= k < |res.types| ==> res.types[k].sold <= res.types[k].capacity
  {
    if cart != [] {
      ReserveWithinCapacity(types, orderId, cart[..|cart| - 1]);
    }
  }

  // ---- The imperative service ----

  /** `OrderService.create_order_items`: reserves line by line in the
      ticket-type table and inserts the items only after the loop, so a
      failing line leaves `orderItems` as it was. */
  method CreateOrderItems(db: Database, orderId: int, cart: seq<CartLine>) returns (r: Result<int, CheckoutError>)
    requires db.Valid()
    requires 0 <= orderId < |db.orders|
    modifies db`ticketTypes, db`orderItems
    ensures match RecordItems(old(db.ticketTypes), orderId, cart)
      case Err(e) => r == Err(e) && db.orderItems == old(db.orderItems)
      case Ok(res) => r == Ok(res.total) && db.ticketTypes == res.types && db.orderItems == old(db.orderItems) + res.items
    ensures r.Ok? ==> db.Valid()
  {
    var items: seq<OrderItem> := [];
    var total := 0;
    var i := 0;
    while i < |cart|
      invariant 0 <= i <= |cart|
      invariant Reserve(old(db.ticketTypes), orderId, cart[..i]) == Ok(Reservation(db.ticketTypes, items, total))
      invariant TypesValid(db.ticketTypes)
      invariant db.orderItems == old(db.orderItems)
    {
      var line := cart[i];
      assert cart[..i + 1][..i] == cart[..i];
      var found := FindActiveById(db.ticketTypes, line.ticketTypeId);
      if found.None? {
        ReserveErrSticks(old(db.ticketTypes), orderId, cart, i + 1, TicketTypeNotFound(line.ticketTypeId));
        return Err(TicketTypeNotFound(line.ticketTypeId));
      }
      var t := found.value;
      if t.sold + line.quantity > t.capacity {
        ReserveErrSticks(old(db.ticketTypes), orderId, cart, i + 1, InsufficientStock(line.ticketTypeId));
        return Err(InsufficientStock(line.ticketTypeId));
      }
      if t.sold + line.quantity < 0 {
        ReserveErrSticks(old(db.ticketTypes), orderId, cart, i + 1, IntegrityViolation);
        return Err(IntegrityViolation);
      }
      db.ticketTypes := db.ticketTypes[line.ticketTypeId := t.(sold := t.sold + line.quantity)];
      var lineTotal := t.price * line.quantity;
      total := total + lineTotal;
      items := items + [OrderItem(orderId, t.eventId, line.ticketTypeId, t.name, t.price, line.quantity, lineTotal)];
      i := i + 1;
    }
    assert cart[..|cart|] == cart;
    if HasNegativeQuantity(items) {
      return Err(IntegrityViolation);
    }
    ReserveItems(old(db.ticketTypes), orderId, cart);
    db.orderItems := db.orderItems + items;
    r := Ok(total);
  }

  /** The nested loops of `create_tickets_for_order`: one unused ticket per
      unit of each item, in item order. */
  method CollectTickets(orderId: int, userId: int, items: seq<OrderItem>) returns (toCreate: seq<Ticket>)
    requires forall j :: 0 <= j < |items| ==> items[j].quantity >= 0
    ensures toCreate == TicketsFor(orderId, userId, items)
  {
    toCreate := [];
    var i := 0;
    while i < |items|
      invariant 0 <= i <= |items|
      invariant toCreate == TicketsFor(orderId, userId, items[..i])
    {
      var item := items[i];
      var k := 0;
      while k < item.quantity
        invariant 0 <= k <= item.quantity
        invariant toCreate == TicketsFor(orderId, userId, items[..i]) + Repeat(TicketFor(orderId, userId, item), k)
      {
        toCreate := toCreate + [Ticket(orderId, item.ticketTypeId, userId, item.eventId, false)];
        k := k + 1;
      }
      assert items[..i + 1][..i] == items[..i];
      i := i + 1;
    }
    assert items[..|items|] == items;
  }

  /** `TicketService.create_tickets_for_order`: the collected tickets are
      inserted at once. */
  method CreateTicketsForOrder(db: Database, orderId: int) returns (created: seq<Ticket>)
    requires db.Valid()
    requires 0 <= orderId < |db.orders|
    modifies db`tickets
    ensures created == TicketsFor(orderId, db.orders[orderId].userId, ItemsOf(db.orderItems, orderId))
    ensures db.tickets == old(db.tickets) + created
    ensures db.Valid()
  {
    var items := ItemsOf(db.orderItems, orderId);
    forall j | 0 <= j < |items|
      ensures items[j].quantity >= 0
    {
      assert items[j] in db.orderItems;
    }
    created := CollectTickets(orderId, db.orders[orderId].userId, items);
    db.tickets := db.tickets + created;
  }

  /** `OrderService.checkout`. The transaction is the saved copy of the four
      tables, put back on every failure after validation. */
  method Checkout(db: Database, cart: seq<CartLine>, user: User, charge: PaymentRequest -> bool) returns (r: Result<int, CheckoutError>)
    requires db.Valid()
    modifies db`ticketTypes, db`orders, db`orderItems, db`tickets
    ensures db.Valid()
    ensures CheckoutOutcome(r, db.Snapshot()) == CheckoutSpec(old(db.Snapshot()), cart, user, charge)
  {
    ghost var before := db.Snapshot();
    var invalid := ValidateCheckoutRequest(db.ticketTypes, cart, user);
    if invalid.Some? {
      return Err(invalid.value);
    }
    var savedTypes, savedOrders, savedItems, savedTickets := db.ticketTypes, db.orders, db.orderItems, db.tickets;
    var orderId := |db.orders|;
    db.orders := db.orders + [NewOrder(user.id)];
    var created := CreateOrderItems(db, orderId, cart);
    if created.Err? {
      db.ticketTypes, db.orders, db.orderItems, db.tickets := savedTypes, savedOrders, savedItems, savedTickets;
      assert RecordItems(before.types, orderId, cart) == Err(created.error);
      return Err(created.error);
    }
    ghost var res := RecordItems(before.types, orderId, cart).value;
    var total := created.value;
    assert total == res.total;
    var success := charge(PaymentRequest(total, orderId, user.id));
    if !success {
      db.ticketTypes, db.orders, db.orderItems, db.tickets := savedTypes, savedOrders, savedItems, savedTickets;
      return Err(PaymentDeclined);
    }
    db.orders := db.orders[orderId := db.orders[orderId].(totalAmount := total, status := Paid)];
    assert db.orders == savedOrders + [Order(user.id, Paid, total)];
    ItemsOfNewOrder(savedItems, res.items, orderId, savedTypes, cart);
    var issued := CreateTicketsForOrder(db, orderId);
    assert issued == TicketsFor(orderId, user.id, res.items);
    r := Ok(orderId);
  }

  /** The items of the new order are exactly the ones this checkout
      recorded: every earlier item belongs to an earlier order. */
  lemma ItemsOfNewOrder(before: seq<OrderItem>, added: seq<OrderItem>, orderId: int, types: seq<TicketType>, cart: seq<CartLine>)
    requires forall j :: 0 <= j < |before| ==> before[j].orderId < orderId
    requires TypesValid(types)
    requires Reserve(types, orderId, cart).Ok? && added == Reserve(types, orderId, cart).value.items
    ensures ItemsOf(before + added, orderId) == added
  {
    ReserveItems(types, orderId, cart);
    FilterConcat(before, added, ForOrder(orderId));
    FilterEmptyIff(before, ForOrder(orderId));
    FilterAll(added, ForOrder(orderId));
  }

  /** `PaymentService.refund_booking`: marks the order refunded and reports
      success. Stock is not given back and tickets stay issued. */
  method RefundBooking(db: Database, orderId: int) returns (ok: bool)
    requires db.Valid()
    requires 0 <= orderId < |db.orders|
    modifies db`orders
    ensures ok
    ensures db.orders == old(db.orders)[orderId := old(db.orders)[orderId].(status := Refunded)]
    ensures db.Valid()
  {
    db.orders := db.orders[orderId := db.orders[orderId].(status := Refunded)];
    ok := true;
  }

  // ---- Properties of checkout ----

  /** Every refusal leaves all four tables exactly as they were: no order,
      no item, no ticket, no change to `sold`. */
  lemma CheckoutFailureChangesNothing(db: Ledger, cart: seq<CartLine>, user: User, charge: PaymentRequest -> bool)
    requires CheckoutSpec(db, cart, user, charge).result.Err?
    ensures CheckoutSpec(db, cart, user, charge).ledger == db
  {
  }

  /** An empty cart or an anonymous user is refused before anything else. */
  lemma CheckoutRejectsEmptyOrAnonymous(db: Ledger, cart: seq<CartLine>, user: User, charge: PaymentRequest -> bool)
    ensures cart == [] ==> CheckoutSpec(db, cart, user, charge) == CheckoutOutcome(Err(EmptyCart), db)
    ensures cart != [] && user.Anonymous? ==> CheckoutSpec(db, cart, user, charge) == CheckoutOutcome(Err(NotAuthenticated), db)
  {
  }

  /** A declined charge is reported as such and rolls everything back. */
  lemma CheckoutDeclined(db: Ledger, cart: seq<CartLine>, user: User, charge: PaymentRequest -> bool)
    requires ValidateRequest(db.types, cart, user).None?
    requires RecordItems(db.types, |db.orders|, cart).Ok?
    requires !charge(PaymentRequest(RecordItems(db.types, |db.orders|, cart).value.total, |db.orders|, user.id))
    ensures CheckoutSpec(db, cart, user, charge) == CheckoutOutcome(Err(PaymentDeclined), db)
  {
  }

  /** A successful checkout passed validation, reserved the cart without a
      rejected insert and was charged; its ledger is built from that
      reservation. */
  lemma CheckoutOk(db: Ledger, cart: seq<CartLine>, user: User, charge: PaymentRequest -> bool)
    requires CheckoutSpec(db, cart, user, charge).result.Ok?
    ensures ValidateRequest(db.types, cart, user).None? && user.Authenticated? && cart != []
    ensures RecordItems(db.types, |db.orders|, cart).Ok?
    ensures var o := |db.orders|;
      var res := RecordItems(db.types, o, cart).value;
      && Reserve(db.types, o, cart) == Ok(res)
      && !HasNegativeQuantity(res.items)
      && charge(PaymentRequest(res.total, o, user.id))
      && CheckoutSpec(db, cart, user, charge) == CheckoutOutcome(Ok(o), Ledger(
           res.types,
           db.orders + [Order(user.id, Paid, res.total)],
           db.items + res.items,
           db.tickets + TicketsFor(o, user.id, res.items)))
  {
  }

  /** What a successful checkout did: it returns the new order's id; the
      order is paid with the sum of the line totals, after the gateway was
      charged that amount; one item per cart line snapshots the type's
      price and name; and the new tickets are those of the new items. */
  lemma CheckoutSuccess(db: Ledger, cart: seq<CartLine>, user: User, charge: PaymentRequest -> bool)
    requires LedgerValid(db)
    requires CheckoutSpec(db, cart, user, charge).result.Ok?
    ensures var out := CheckoutSpec(db, cart, user, charge);
      var o := |db.orders|;
      var added := out.ledger.items[|db.items|..];
      var total := SumOf(added, LineTotalOf);
      && out.result == Ok(o) && user.Authenticated? && cart != []
      && charge(PaymentRequest(total, o, user.id))
      && out.ledger.orders == db.orders + [Order(user.id, Paid, total)]
      && out.ledger.items == db.items + added
      && |added| == |cart|
      && (forall j :: 0 <= j < |cart| ==>
            0 <= cart[j].ticketTypeId < |db.types| && db.types[cart[j].ticketTypeId].active &&
            cart[j].quantity >= 0 &&
            added[j] == ItemFor(o, cart[j], db.types[cart[j].ticketTypeId]))
      && out.ledger.tickets == db.tickets + TicketsFor(o, user.id, added)
  {
    var o := |db.orders|;
    CheckoutOk(db, cart, user, charge);
    var res := RecordItems(db.types, o, cart).value;
    ReserveItems(db.types, o, cart);
    ReserveTotal(db.types, o, cart);
    assert (db.items + res.items)[|db.items|..] == res.items;
    forall j | 0 <= j < |cart|
      ensures cart[j].quantity >= 0
    {
      assert res.items[j].quantity == cart[j].quantity;
    }
  }

  /** After a successful checkout each type's `sold` has risen by the
      quantity the cart asked of it, and nothing else about the types
      changed. */
  lemma CheckoutSuccessStock(db: Ledger, cart: seq<CartLine>, user: User, charge: PaymentRequest -> bool)
    requires LedgerValid(db)
    requires CheckoutSpec(db, cart, user, charge).result.Ok?
    ensures var out := CheckoutSpec(db, cart, user, charge);
      && |out.ledger.types| == |db.types|
      && TypesValid(out.ledger.types)
      && (forall k :: 0 <= k < |db.types| ==>
            out.ledger.types[k] == db.types[k].(sold := db.types[k].sold + SumOf(cart, QuantityIfType(k))))
  {
    CheckoutOk(db, cart, user, charge);
    ReserveTypes(db.types, |db.orders|, cart);
  }

  /** A successful checkout keeps the schema's guarantees. */
  lemma CheckoutPreservesValid(db: Ledger, cart: seq<CartLine>, user: User, charge: PaymentRequest -> bool)
    requires LedgerValid(db)
    ensures LedgerValid(CheckoutSpec(db, cart, user, charge).ledger)
  {
    var out := CheckoutSpec(db, cart, user, charge);
    if out.result.Ok? {
      CheckoutSuccessStock(db, cart, user, charge);
      CheckoutSuccess(db, cart, user, charge);
    }
  }

  function ItemQuantityIfType(k: int): OrderItem -> int
  {
    (item: OrderItem) => if item.ticketTypeId == k then item.quantity else 0
  }

  /** 1 for a ticket of type `k`, 0 for any other. */
  function TicketOfType(k: int): Ticket -> int
  {
    (t: Ticket) => if t.ticketTypeId == k then 1 else 0
  }

  lemma {:induction false} SumOfRepeat<T>(x: T, n: int, f: T -> int)
    requires n >= 0
    ensures SumOf(Repeat(x, n), f) == n * f(x)
  {
    if n > 0 {
      SumOfRepeat(x, n - 1, f);
      SumOfSnoc(Repeat(x, n - 1), x, f);
    }
  }

  /** One ticket per unit: the number of tickets issued is the items' total
      quantity, and likewise for each ticket type. */
  lemma {:induction false} TicketsForCounts(orderId: int, userId: int, items: seq<OrderItem>, k: int)
    requires forall j :: 0 <= j < |items| ==> items[j].quantity >= 0
    ensures |TicketsFor(orderId, userId, items)| == SumOf(items, QuantityOf)
    ensures SumOf(TicketsFor(orderId, userId, items), TicketOfType(k)) == SumOf(items, ItemQuantityIfType(k))
  {
    if items != [] {
      var init, last := items[..|items| - 1], items[|items| - 1];
      assert items == init + [last];
      TicketsForCounts(orderId, userId, init, k);
      var copies := Repeat(TicketFor(orderId, userId, last), last.quantity);
      SumOfConcat(TicketsFor(orderId, userId, init), copies, TicketOfType(k));
      SumOfRepeat(TicketFor(orderId, userId, last), last.quantity, TicketOfType(k));
      SumOfSnoc(init, last, QuantityOf);
      SumOfSnoc(init, last, ItemQuantityIfType(k));
    }
  }

  /** The issued tickets match the cart: `get_total_items` of the new order,
      the number of tickets issued and the cart's total quantity coincide,
      and so do, per ticket type, the tickets issued and the quantity
      asked. */
  lemma CheckoutIssuesOneTicketPerUnit(db: Ledger, cart: seq<CartLine>, user: User, charge: PaymentRequest -> bool, k: int)
    requires LedgerValid(db)
    requires CheckoutSpec(db, cart, user, charge).result.Ok?
    ensures var out := CheckoutSpec(db, cart, user, charge);
      var issued := out.ledger.tickets[|db.tickets|..];
      && GetTotalItems(out.ledger.items, |db.orders|) == |issued|
      && |issued| == SumOf(cart, (line: CartLine) => line.quantity)
      && SumOf(issued, TicketOfType(k)) == SumOf(cart, QuantityIfType(k))
  {
    var o := |db.orders|;
    CheckoutOk(db, cart, user, charge);
    var res := RecordItems(db.types, o, cart).value;
    ReserveItems(db.types, o, cart);
    var out := CheckoutSpec(db, cart, user, charge);
    assert (db.tickets + TicketsFor(o, user.id, res.items))[|db.tickets|..] == TicketsFor(o, user.id, res.items);
    ItemsOfNewOrder(db.items, res.items, o, db.types, cart);
    forall j | 0 <= j < |res.items|
      ensures res.items[j].quantity >= 0
    {
      assert !(res.items[j].quantity < 0);
    }
    TicketsForCounts(o, user.id, res.items, k);
    SumOfPointwise(res.items, QuantityOf, cart, (line: CartLine) => line.quantity);
    SumOfPointwise(res.items, ItemQuantityIfType(k), cart, QuantityIfType(k));
  }

  /** The stock ledger's invariant: for every ticket type, the tickets issued
      for it never exceed its `sold` counter, which never exceeds its
      capacity. */
  predicate Accounted(l: Ledger)
  {
    forall k :: 0 <= k < |l.types| ==>
      SumOf(l.tickets, TicketOfType(k)) <= l.types[k].sold <= l.types[k].capacity
  }

  /** Checkout preserves the stock ledger's invariant, whatever the cart,
      the user and the gateway's answer. */
  lemma CheckoutPreservesAccounting(db: Ledger, cart: seq<CartLine>, user: User, charge: PaymentRequest -> bool)
    requires LedgerValid(db) && Accounted(db)
    ensures Accounted(CheckoutSpec(db, cart, user, charge).ledger)
  {
    var out := CheckoutSpec(db, cart, user, charge);
    if out.result.Ok? {
      var o := |db.orders|;
      ReserveWithinCapacity(db.types, o, cart);
      CheckoutOk(db, cart, user, charge);
      CheckoutSuccessStock(db, cart, user, charge);
      forall k | 0 <= k < |out.ledger.types|
        ensures SumOf(out.ledger.tickets, TicketOfType(k)) <= out.ledger.types[k].sold
      {
        CheckoutIssuesOneTicketPerUnit(db, cart, user, charge, k);
        var issued := out.ledger.tickets[|db.tickets|..];
        assert out.ledger.tickets == db.tickets + issued;
        SumOfConcat(db.tickets, issued, TicketOfType(k));
      }
    }
  }

  /** When both succeed, `calculate_total_price` and checkout agree on the
      amount charged. */
  lemma TotalPriceMatchesCheckout(db: Ledger, cart: seq<CartLine>, user: User, charge: PaymentRequest -> bool)
    requires LedgerValid(db)
    requires TotalPrice(db.types, cart).Ok?
    requires CheckoutSpec(db, cart, user, charge).result.Ok?
    ensures CheckoutSpec(db, cart, user, charge).ledger.orders[|db.orders|].totalAmount == TotalPrice(db.types, cart).value
  {
    var out := CheckoutSpec(db, cart, user, charge);
    CheckoutSuccess(db, cart, user, charge);
    TotalPriceSpec(db.types, cart);
    var added := out.ledger.items[|db.items|..];
    SumOfPointwise(added, LineTotalOf, cart, LinePrice(db.types));
  }

  /** Run one after the other, the non-locking pre-check already decides a
      cart that names each type at most once, with active types and
      non-negative quantities: if it passes against a ledger within
      capacity, the re-check under the row lock passes too. The re-check
      only matters when another checkout runs in between. */
  lemma {:induction false} PrecheckDecidesSequentially(types: seq<TicketType>, orderId: int, cart: seq<CartLine>)
    requires TypesValid(types)
    requires forall k :: 0 <= k < |types| ==> types[k].sold <= types[k].capacity
    requires forall i, j :: 0 <= i < j < |cart| ==> cart[i].ticketTypeId != cart[j].ticketTypeId
    requires forall j :: 0 <= j < |cart| ==> cart[j].quantity >= 0 && FindActiveById(types, cart[j].ticketTypeId).Some?
    requires FirstUnavailable(types, cart).None?
    ensures RecordItems(types, orderId, cart).Ok?
  {
    ReserveSucceeds(types, orderId, cart);
    ReserveItems(types, orderId, cart);
  }

  lemma {:induction false} ReserveSucceeds(types: seq<TicketType>, orderId: int, cart: seq<CartLine>)
    requires TypesValid(types)
    requires forall k :: 0 <= k < |types| ==> types[k].sold <= types[k].capacity
    requires forall i, j :: 0 <= i < j < |cart| ==> cart[i].ticketTypeId != cart[j].ticketTypeId
    requires forall j :: 0 <= j < |cart| ==> cart[j].quantity >= 0 && FindActiveById(types, cart[j].ticketTypeId).Some?
    requires FirstUnavailable(types, cart).None?
    ensures Reserve(types, orderId, cart).Ok?
  {
    if cart != [] {
      var init, line := cart[..|cart| - 1], cart[|cart| - 1];
      FirstUnavailableSpec(types, cart);
      FirstUnavailableSpec(types, init);
      ReserveSucceeds(types, orderId, init);
      ReserveTypes(types, orderId, init);
      SumOfZero(init, QuantityIfType(line.ticketTypeId));
      CheckAvailabilityMeaning(types, line.ticketTypeId, line.quantity);
    }
  }

  /** A quantity-0 line is accepted by checkout, which creates a paid order
      of amount 0 with a zero-quantity item and issues no ticket, while
      `calculate_total_price` refuses the same cart. */
  lemma ZeroQuantityLineIsCheckedOut(db: Ledger, id: int, uid: int, charge: PaymentRequest -> bool)
    requires LedgerValid(db)
    requires 0 <= id < |db.types| && db.types[id].active && db.types[id].sold <= db.types[id].capacity
    requires charge(PaymentRequest(0, |db.orders|, uid))
    ensures var out := CheckoutSpec(db, [CartLine(id, 0)], Authenticated(uid), charge);
      && out.result == Ok(|db.orders|)
      && out.ledger.types == db.types
      && out.ledger.orders == db.orders + [Order(uid, Paid, 0)]
      && out.ledger.items == db.items + [ItemFor(|db.orders|, CartLine(id, 0), db.types[id])]
      && out.ledger.tickets == db.tickets
    ensures TotalPrice(db.types, [CartLine(id, 0)]) == Err(InvalidQuantity(id))
  {
    var cart := [CartLine(id, 0)];
    var o := |db.orders|;
    var t := db.types[id];
    var item := ItemFor(o, cart[0], t);
    assert WellFormed(t);
    assert cart[..0] == [] && cart[1..] == [];
    assert FindActiveById(db.types, id) == Some(t);
    assert db.types[id := t.(sold := t.sold + 0)] == db.types;
    assert ReserveLine(Reservation(db.types, [], 0), o, cart[0]) == Ok(Reservation(db.types, [] + [item], 0 + item.lineTotal));
    assert item.lineTotal == 0 && [] + [item] == [item];
    assert Reserve(db.types, o, cart[..0]) == Ok(Reservation(db.types, [], 0));
    assert Reserve(db.types, o, cart) == Ok(Reservation(db.types, [item], 0));
    assert !HasNegativeQuantity([item]);
    FirstUnavailableSpec(db.types, cart);
    CheckAvailabilityMeaning(db.types, id, 0);
    assert ValidateRequest(db.types, cart, Authenticated(uid)) == None;
    assert [item][..0] == [];
    assert TicketsFor(o, uid, [item]) == TicketsFor(o, uid, []) + Repeat(TicketFor(o, uid, item), 0);
  }

  /** The pre-check is not the authoritative one: with one ticket left, a
      cart naming that type twice passes it line by line, and the re-check
      under the lock refuses the second line. Such a cart can only come from
      a direct caller of the service: the session cart the views build is
      keyed by ticket-type id, so it never names a type twice. */
  lemma PrecheckIsNotAuthoritative(db: Ledger, id: int, uid: int, charge: PaymentRequest -> bool)
    requires LedgerValid(db)
    requires 0 <= id < |db.types| && db.types[id].active && db.types[id].sold + 1 == db.types[id].capacity
    ensures var cart := [CartLine(id, 1), CartLine(id, 1)];
      && ValidateRequest(db.types, cart, Authenticated(uid)).None?
      && CheckoutSpec(db, cart, Authenticated(uid), charge) == CheckoutOutcome(Err(InsufficientStock(id)), db)
  {
    var cart := [CartLine(id, 1), CartLine(id, 1)];
    var o := |db.orders|;
    var t := db.types[id];
    assert cart[..1] == [CartLine(id, 1)] && cart[..1][..0] == [] && cart[1..] == [CartLine(id, 1)];
    assert WellFormed(t);
    FirstUnavailableSpec(db.types, cart);
    CheckAvailabilityMeaning(db.types, id, 1);
    assert FindActiveById(db.types, id) == Some(t);
    var item := ItemFor(o, cart[0], t);
    var first := Reservation(db.types[id := t.(sold := t.sold + 1)], [] + [item], 0 + item.lineTotal);
    assert ReserveLine(Reservation(db.types, [], 0), o, cart[0]) == Ok(first);
    assert Reserve(db.types, o, cart[..1]) == Ok(first);
    assert ReserveLine(first, o, cart[1]) == Err(InsufficientStock(id));
  }

  /** The pre-check ignores `active`: a line for an inactive type with stock
      passes it and the checkout then fails on the lookup. */
  lemma InactiveTypePassesPrecheck(db: Ledger, id: int, q: int, uid: int, charge: PaymentRequest -> bool)
    requires LedgerValid(db)
    requires 0 <= id < |db.types| && !db.types[id].active && db.types[id].sold + q <= db.types[id].capacity
    ensures var cart := [CartLine(id, q)];
      && ValidateRequest(db.types, cart, Authenticated(uid)).None?
      && CheckoutSpec(db, cart, Authenticated(uid), charge) == CheckoutOutcome(Err(TicketTypeNotFound(id)), db)
  {
    var cart := [CartLine(id, q)];
    assert cart[..0] == [] && cart[1..] == [];
    FirstUnavailableSpec(db.types, cart);
    CheckAvailabilityMeaning(db.types, id, q);
    assert Reserve(db.types, |db.orders|, cart) == Err(TicketTypeNotFound(id));
  }
}
