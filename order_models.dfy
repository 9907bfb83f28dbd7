/** Orders, order items, tickets, bookings and ticket holds
    (orders/models.py). Money is integer cents. */
module OrderModels {
  import opened Outcomes
  import opened Seqs

  datatype OrderStatus = Created | Paid | Refunded

  datatype Order = Order(userId: int, status: OrderStatus, totalAmount: int)

  /** `Order.objects.create(user=user)`: the field defaults apply. */
  function NewOrder(userId: int): (o: Order)
    ensures o.userId == userId
    ensures o.status == Created && o.totalAmount == 0
  {
    Order(userId, Created, 0)
  }

  /** A purchased line; `unitPrice` and `lineTotal` are snapshots taken at
      checkout. */
  datatype OrderItem = OrderItem(
    orderId: int,
    eventId: int,
    ticketTypeId: int,
    name: string,
    unitPrice: int,
    quantity: int,
    lineTotal: int)

  /** One admission unit. Its unique code is its position in the ticket
      table, which stands for the random UUID the source assigns. */
  datatype Ticket = Ticket(orderId: int, ticketTypeId: int, userId: int, eventId: int, isUsed: bool)

  function ForOrder(orderId: int): OrderItem -> bool
  {
    (item: OrderItem) => item.orderId == orderId
  }

  /** `order.items.all()`. */
  function ItemsOf(items: seq<OrderItem>, orderId: int): seq<OrderItem>
  {
    Filter(items, ForOrder(orderId))
  }

  function QuantityOf(item: OrderItem): int { item.quantity }

  function LineTotalOf(item: OrderItem): int { item.lineTotal }

  /** `Order.get_total_items`: the quantities of the order's items summed. */
  function GetTotalItems(items: seq<OrderItem>, orderId: int): int
  {
    SumOf(ItemsOf(items, orderId), QuantityOf)
  }

  /** With the schema's non-negative quantities the count is never negative. */
  lemma GetTotalItemsNonNegative(items: seq<OrderItem>, orderId: int)
    requires forall j :: 0 <= j < |items| ==> items[j].quantity >= 0
    ensures GetTotalItems(items, orderId) >= 0
  {
    var mine := ItemsOf(items, orderId);
    assert forall x :: x in mine ==> x in items;
    SumOfNonNegative(mine, QuantityOf);
  }

  // ---- Booking ----

  datatype BookingStatus = Pending | Confirmed | BookingPaid | Cancelled | BookingRefunded

  /** The statuses from which a booking may still be cancelled. */
  predicate Cancellable(s: BookingStatus)
  {
    s == Pending || s == Confirmed
  }

  class Booking {
    var status: BookingStatus
    var cancelledAt: Option<int>
    var totalAmount: int

    /** A new booking is pending and has never been cancelled. */
    constructor (totalAmount: int)
      ensures status == Pending && cancelledAt == None && this.totalAmount == totalAmount
    {
      status := Pending;
      cancelledAt := None;
      this.totalAmount := totalAmount;
    }

    /** `Booking.can_be_cancelled`. */
    function CanBeCancelled(): (r: bool)
      reads this
      ensures r <==> status == Pending || status == Confirmed
    {
      Cancellable(status)
    }

    /** `Booking.cancel`: from a cancellable status, record the cancellation
        time `now` and report success; otherwise change nothing. */
    method Cancel(now: int) returns (ok: bool)
      modifies this`status, this`cancelledAt
      ensures ok == old(CanBeCancelled())
      ensures ok ==> status == Cancelled && cancelledAt == Some(now)
      ensures !ok ==> status == old(status) && cancelledAt == old(cancelledAt)
    {
      if CanBeCancelled() {
        status := Cancelled;
        cancelledAt := Some(now);
        ok := true;
      } else {
        ok := false;
      }
    }
  }

  /** Cancelling twice: the second call always reports failure and keeps the
      time of the first cancellation. */
  method CancelTwice(b: Booking, first: int, second: int) returns (ok1: bool, ok2: bool)
    modifies b
    ensures ok1 == old(b.CanBeCancelled())
    ensures !ok2
    ensures ok1 ==> b.status == Cancelled && b.cancelledAt == Some(first)
    ensures !ok1 ==> b.status == old(b.status) && b.cancelledAt == old(b.cancelledAt)
  {
    ok1 := b.Cancel(first);
    ok2 := b.Cancel(second);
  }

  class BookingItem {
    var quantity: nat
    var unitPrice: int
    var subtotal: int

    constructor (quantity: nat, unitPrice: int)
      ensures this.quantity == quantity && this.unitPrice == unitPrice && subtotal == quantity * unitPrice
    {
      this.quantity := quantity;
      this.unitPrice := unitPrice;
      subtotal := quantity * unitPrice;
    }

    /** `BookingItem.save`: whatever `subtotal` held, it is recomputed from
        quantity and unit price before the row is written. */
    method Save()
      modifies this`subtotal
      ensures subtotal == quantity * unitPrice
    {
      subtotal := quantity * unitPrice;
    }
  }

  // ---- TicketHold ----

  /** A time-boxed soft reservation; times are instants on one clock. */
  datatype TicketHold = TicketHold(
    ticketTypeId: int,
    userId: Option<int>,
    sessionKey: string,
    quantity: nat,
    createdAt: int,
    expiresAt: int)

  /** `TicketHold.is_active`, with the current time passed in. */
  predicate IsActive(h: TicketHold, now: int)
  {
    h.expiresAt > now
  }

  /** Liveness only ever ends: a hold that is expired at `now` is expired at
      every later instant. */
  lemma ExpiryIsFinal(h: TicketHold, now: int, later: int)
    requires now <= later && !IsActive(h, now)
    ensures !IsActive(h, later)
  {
  }
}
