/** The database the core reads and writes: one table per model, each a
    sequence. Rows of `eventos` and `ticketTypes` keep their id equal to
    their position; an order's id and a ticket's code are their positions
    too (rows are never deleted from those tables here). */
module Store {
  import opened Catalog
  import opened OrderModels

  /** The tables a checkout touches. */
  datatype Ledger = Ledger(
    types: seq<TicketType>,
    orders: seq<Order>,
    items: seq<OrderItem>,
    tickets: seq<Ticket>)

  /** Every ticket type sits at its own id and satisfies the table's CHECK
      constraints. */
  predicate TypesValid(types: seq<TicketType>)
  {
    forall i :: 0 <= i < |types| ==> types[i].id == i && WellFormed(types[i])
  }

  /** What the schema guarantees about the checkout tables: the ticket-type
      constraints, order items and tickets pointing at existing orders, and
      order-item quantities that are not negative (PositiveIntegerField). */
  predicate LedgerValid(l: Ledger)
  {
    && TypesValid(l.types)
    && (forall j :: 0 <= j < |l.items| ==> 0 <= l.items[j].orderId < |l.orders| && l.items[j].quantity >= 0)
    && (forall j :: 0 <= j < |l.tickets| ==> 0 <= l.tickets[j].orderId < |l.orders|)
  }

  class Database {
    var eventos: seq<Evento>
    var categorias: set<int>
    var ticketTypes: seq<TicketType>
    var orders: seq<Order>
    var orderItems: seq<OrderItem>
    var tickets: seq<Ticket>
    var holds: seq<TicketHold>

    function Snapshot(): Ledger
      reads this
    {
      Ledger(ticketTypes, orders, orderItems, tickets)
    }

    ghost predicate Valid()
      reads this
    {
      && (forall i :: 0 <= i < |eventos| ==> eventos[i].id == i)
      && LedgerValid(Snapshot())
    }

    constructor (categorias: set<int>)
      ensures Valid()
      ensures this.categorias == categorias
      ensures eventos == [] && ticketTypes == [] && orders == [] && orderItems == [] && tickets == [] && holds == []
    {
      eventos := [];
      this.categorias := categorias;
      ticketTypes := [];
      orders := [];
      orderItems := [];
      tickets := [];
      holds := [];
    }
  }
}
