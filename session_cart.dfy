/** The session cart (orders/views.py): a dictionary from ticket-type id to
    an entry, kept in the session and changed in place by the cart views.
    A Python dict remembers insertion order, and checkout walks the cart in
    that order, so the dictionary is a sequence of entries with distinct
    keys; `Lookup` is its `.get`. */
module SessionCart {
  import opened Outcomes
  import opened Seqs
  import opened Catalog
  import opened CatalogQueries
  import opened Store
  import opened Checkout

  /** One cart entry; `price` is the ticket type's price when the entry was
      created, in cents. */
  datatype CartItem = CartItem(ticketTypeId: int, eventId: int, name: string, price: int, quantity: int)

  predicate KeysDistinct(c: seq<CartItem>)
  {
    forall i, j :: 0 <= i < j < |c| ==> c[i].ticketTypeId != c[j].ticketTypeId
  }

  /** Position of the entry with key `id`, if any. */
  function IndexOf(c: seq<CartItem>, id: int): (r: Option<nat>)
    ensures r.Some? ==> r.value < |c| && c[r.value].ticketTypeId == id
    ensures r.Some? ==> forall j :: 0 <= j < r.value ==> c[j].ticketTypeId != id
    ensures r.None? ==> forall j :: 0 <= j < |c| ==> c[j].ticketTypeId != id
  {
    if c == [] then None
    else if c[0].ticketTypeId == id then Some(0)
    else match IndexOf(c[1..], id)
      case None => None
      case Some(i) => Some(i + 1)
  }

  /** In a cart with distinct keys the entry with key `id` is found where it
      is. */
  lemma IndexOfDistinct(c: seq<CartItem>, i: int)
    requires KeysDistinct(c) && 0 <= i < |c|
    ensures IndexOf(c, c[i].ticketTypeId) == Some(i)
  {
  }

  /** `cart.get(str(id))`. */
  function Lookup(c: seq<CartItem>, id: int): Option<CartItem>
  {
    match IndexOf(c, id)
    case None => None
    case Some(i) => Some(c[i])
  }

  /** `del cart[str(id)]`; nothing happens when the key is absent. */
  function RemoveKey(c: seq<CartItem>, id: int): seq<CartItem>
  {
    match IndexOf(c, id)
    case None => c
    case Some(i) => c[..i] + c[i + 1..]
  }

  /** `if new_qty > available: new_qty = available`, also `min(q, available)`. */
  function ClampTo(q: int, available: int): (r: int)
    ensures r <= available && r <= q
    ensures r == q || r == available
  {
    if q > available then available else q
  }

  /** The quantity `add_to_cart` reads: at least 1, and 1 when the field
      is not an integer (`None`). */
  function ParseQuantity(raw: Option<int>): (q: int)
    ensures q >= 1
    ensures raw.Some? && raw.value >= 1 ==> q == raw.value
    ensures raw.None? || raw.value < 1 ==> q == 1
  {
    match raw
    case None => 1
    case Some(n) => if n > 1 then n else 1
  }

  /** The entry `add_to_cart` creates for ticket type `t`. */
  function NewEntry(t: TicketType, q: int): CartItem
  {
    CartItem(t.id, t.eventId, t.name, t.price, ClampTo(q, Available(t)))
  }

  /** The cart after `add_to_cart` added `q` of `t`: an existing entry grows
      by `q` up to the availability; otherwise a new entry is appended. */
  function AddLine(c: seq<CartItem>, t: TicketType, q: int): seq<CartItem>
  {
    match IndexOf(c, t.id)
    case Some(i) => c[i := c[i].(quantity := ClampTo(c[i].quantity + q, Available(t)))]
    case None => c + [NewEntry(t, q)]
  }

  /** Adding touches only the key of `t`: its entry becomes the old quantity
      plus `q`, capped at the availability (a new entry gets `q` capped the
      same way), and every other key keeps its entry. */
  lemma AddLineSpec(c: seq<CartItem>, t: TicketType, q: int)
    requires KeysDistinct(c)
    ensures KeysDistinct(AddLine(c, t, q))
    ensures Lookup(AddLine(c, t, q), t.id) ==
      match Lookup(c, t.id)
      case Some(old_) => Some(old_.(quantity := ClampTo(old_.quantity + q, Available(t))))
      case None => Some(NewEntry(t, q))
    ensures forall k :: k != t.id ==> Lookup(AddLine(c, t, q), k) == Lookup(c, k)
  {
    var r := AddLine(c, t, q);
    match IndexOf(c, t.id)
    case Some(i) =>
      IndexOfDistinct(r, i);
      forall k | k != t.id
        ensures Lookup(r, k) == Lookup(c, k)
      {
        if IndexOf(c, k).Some? {
          IndexOfDistinct(r, IndexOf(c, k).value);
        }
      }
    case None =>
      IndexOfDistinct(r, |c|);
      forall k | k != t.id
        ensures Lookup(r, k) == Lookup(c, k)
      {
        if IndexOf(c, k).Some? {
          IndexOfDistinct(r, IndexOf(c, k).value);
        }
      }
  }

  /** Removing deletes exactly that key. */
  lemma RemoveKeySpec(c: seq<CartItem>, id: int)
    requires KeysDistinct(c)
    ensures KeysDistinct(RemoveKey(c, id))
    ensures Lookup(RemoveKey(c, id), id).None?
    ensures forall k :: k != id ==> Lookup(RemoveKey(c, id), k) == Lookup(c, k)
    ensures |RemoveKey(c, id)| == if Lookup(c, id).Some? then |c| - 1 else |c|
  {
    match IndexOf(c, id)
    case None =>
    case Some(i) =>
      RemoveAtShape(c, i);
      forall k | k != id
        ensures Lookup(RemoveKey(c, id), k) == Lookup(c, k)
      {
        RemoveAtLookup(c, i, k);
      }
  }

  lemma RemoveAtShape(c: seq<CartItem>, i: nat)
    requires KeysDistinct(c) && i < |c|
    ensures var r := c[..i] + c[i + 1..];
      && |r| == |c| - 1
      && (forall j :: 0 <= j < i ==> r[j] == c[j])
      && (forall j :: i <= j < |r| ==> r[j] == c[j + 1])
      && KeysDistinct(r)
      && IndexOf(r, c[i].ticketTypeId).None?
  {
    var r := c[..i] + c[i + 1..];
    assert forall j :: 0 <= j < i ==> r[j] == c[j];
    assert forall j :: i <= j < |r| ==> r[j] == c[j + 1];
  }

  lemma RemoveAtLookup(c: seq<CartItem>, i: nat, k: int)
    requires KeysDistinct(c) && i < |c| && k != c[i].ticketTypeId
    ensures Lookup(c[..i] + c[i + 1..], k) == Lookup(c, k)
  {
    var r := c[..i] + c[i + 1..];
    RemoveAtShape(c, i);
    match IndexOf(c, k)
    case None =>
    case Some(m) =>
      if m < i {
        IndexOfDistinct(r, m);
      } else {
        assert r[m - 1] == c[m];
        IndexOfDistinct(r, m - 1);
      }
  }

  /** Adding a ticket type the cart did not hold and then removing it gives
      back the cart. */
  lemma AddThenRemove(c: seq<CartItem>, t: TicketType, q: int)
    requires Lookup(c, t.id).None?
    ensures RemoveKey(AddLine(c, t, q), t.id) == c
  {
    var r := AddLine(c, t, q);
    assert r == c + [NewEntry(t, q)];
    assert r[..|c|] == c;
    assert IndexOf(r, t.id) == Some(|c|) by {
      assert r[|c|].ticketTypeId == t.id;
    }
  }

  /** `update_quantity` on an entry at position `i`, for ticket type `t`:
      below 1 the entry is deleted, otherwise it is capped at the
      availability. */
  function StepLine(c: seq<CartItem>, i: nat, t: TicketType, delta: int): seq<CartItem>
    requires i < |c|
  {
    var newQty := c[i].quantity + delta;
    if newQty < 1 then c[..i] + c[i + 1..]
    else c[i := c[i].(quantity := ClampTo(newQty, Available(t)))]
  }

  /** A step deletes the stepped entry when its quantity would drop below 1
      and otherwise sets it to the new quantity capped at the availability;
      it keeps the keys distinct and the quantities non-negative, and
      touches no other entry. */
  lemma StepLineKeepsShape(c: seq<CartItem>, i: nat, t: TicketType, delta: int)
    requires KeysDistinct(c) && i < |c|
    requires forall j :: 0 <= j < |c| ==> c[j].quantity >= 0
    ensures KeysDistinct(StepLine(c, i, t, delta))
    ensures forall j :: 0 <= j < |StepLine(c, i, t, delta)| ==> StepLine(c, i, t, delta)[j].quantity >= 0
    ensures Lookup(StepLine(c, i, t, delta), c[i].ticketTypeId) ==
      if c[i].quantity + delta < 1 then None
      else Some(c[i].(quantity := ClampTo(c[i].quantity + delta, Available(t))))
    ensures forall k :: k != c[i].ticketTypeId ==> Lookup(StepLine(c, i, t, delta), k) == Lookup(c, k)
  {
    if c[i].quantity + delta < 1 {
      RemoveAtShape(c, i);
      forall k | k != c[i].ticketTypeId
        ensures Lookup(StepLine(c, i, t, delta), k) == Lookup(c, k)
      {
        RemoveAtLookup(c, i, k);
      }
    } else {
      var r := StepLine(c, i, t, delta);
      IndexOfDistinct(c, i);
      IndexOfDistinct(r, i);
      forall k | k != c[i].ticketTypeId
        ensures Lookup(r, k) == Lookup(c, k)
      {
        match IndexOf(c, k)
        case None =>
        case Some(m) => IndexOfDistinct(r, m);
      }
    }
  }

  /** `_cart_total_quantity`. */
  function TotalQuantity(c: seq<CartItem>): int
  {
    SumOf(c, (item: CartItem) => item.quantity)
  }

  function LineValue(item: CartItem): int { item.price * item.quantity }

  /** The total `cart_view` shows. */
  function CartTotal(c: seq<CartItem>): int
  {
    SumOf(c, LineValue)
  }

  /** The cart as `checkout` reads it. */
  function ToLines(c: seq<CartItem>): (r: seq<CartLine>)
    ensures |r| == |c|
    ensures forall j :: 0 <= j < |c| ==> r[j] == CartLine(c[j].ticketTypeId, c[j].quantity)
  {
    if c == [] then [] else [CartLine(c[0].ticketTypeId, c[0].quantity)] + ToLines(c[1..])
  }

  /** The count shown with the cart is the number of tickets a checkout of
      it issues (see `CheckoutIssuesOneTicketPerUnit`). */
  lemma TotalQuantityIsTicketCount(c: seq<CartItem>)
    ensures TotalQuantity(c) == SumOf(ToLines(c), (line: CartLine) => line.quantity)
  {
    SumOfPointwise(c, (item: CartItem) => item.quantity, ToLines(c), (line: CartLine) => line.quantity);
  }

  /** While the catalogue prices are the ones the entries copied, every
      quantity is positive and every type active, the cart page total is the
      amount `calculate_total_price` computes for the same cart (on a
      non-empty cart it returns `LineTotals`). */
  lemma CartTotalMatchesTotalPrice(c: seq<CartItem>, types: seq<TicketType>)
    requires forall j :: 0 <= j < |c| ==>
      0 <= c[j].ticketTypeId < |types| && types[c[j].ticketTypeId].active &&
      types[c[j].ticketTypeId].price == c[j].price && c[j].quantity > 0
    ensures LineTotals(types, ToLines(c)) == Ok(CartTotal(c))
  {
    var lines := ToLines(c);
    forall j | 0 <= j < |c|
      ensures LineValue(c[j]) == LinePrice(types)(lines[j])
    {
      assert lines[j] == CartLine(c[j].ticketTypeId, c[j].quantity);
    }
    SumOfPointwise(c, LineValue, lines, LinePrice(types));
    LineTotalsSpec(types, lines);
  }

  datatype AddOutcome = NoSuchTicketType | SoldOut | Added(cartCount: int)

  datatype UpdateOutcome = Ignored | NotInCart | UnknownTicketType | Updated

  datatype CheckoutPage = LoginRequired | CartIsEmpty | ShowCheckout | Purchased(orderId: int) | CheckoutFailed(error: CheckoutError)

  /** `get_object_or_404(TicketType, pk=..., active=True)`. */
  function LookupActive(types: seq<TicketType>, id: Option<int>): Option<TicketType>
  {
    if id.None? then None else FindActiveById(types, id.value)
  }

  /** The session: whether a cart is stored yet, and its entries. */
  class Session {
    var hasCart: bool
    var items: seq<CartItem>

    ghost predicate Valid()
      reads this
    {
      && KeysDistinct(items)
      && (forall j :: 0 <= j < |items| ==> items[j].quantity >= 0)
      && (!hasCart ==> items == [])
    }

    constructor ()
      ensures Valid() && !hasCart && items == []
    {
      hasCart := false;
      items := [];
    }

    /** `_get_cart`: stores an empty cart the first time. */
    method GetCart()
      modifies this`hasCart
      ensures hasCart
    {
      if !hasCart {
        hasCart := true;
      }
    }

    /** `add_to_cart`. */
    method AddToCart(types: seq<TicketType>, ticketTypeId: Option<int>, quantityRaw: Option<int>) returns (r: AddOutcome)
      requires Valid()
      modifies this
      ensures Valid()
      ensures LookupActive(types, ticketTypeId).None? ==>
        r == NoSuchTicketType && hasCart == old(hasCart) && items == old(items)
      ensures LookupActive(types, ticketTypeId).Some? && Available(LookupActive(types, ticketTypeId).value) <= 0 ==>
        r == SoldOut && hasCart == old(hasCart) && items == old(items)
      ensures LookupActive(types, ticketTypeId).Some? && Available(LookupActive(types, ticketTypeId).value) > 0 ==>
        && hasCart
        && items == AddLine(old(items), LookupActive(types, ticketTypeId).value, ParseQuantity(quantityRaw))
        && r == Added(TotalQuantity(items))
    {
      var quantity := ParseQuantity(quantityRaw);
      var found := LookupActive(types, ticketTypeId);
      if found.None? {
        return NoSuchTicketType;
      }
      var t := found.value;
      if Available(t) <= 0 {
        return SoldOut;
      }
      GetCart();
      AddLineSpec(items, t, quantity);
      var i := IndexOf(items, t.id);
      if i.Some? {
        var newQty := items[i.value].quantity + quantity;
        if newQty > Available(t) {
          newQty := Available(t);
        }
        items := items[i.value := items[i.value].(quantity := newQty)];
      } else {
        items := items + [CartItem(t.id, t.eventId, t.name, t.price, ClampTo(quantity, Available(t)))];
      }
      r := Added(TotalQuantity(items));
    }

    /** `remove_from_cart`. */
    method RemoveFromCart(ticketTypeId: Option<int>) returns (cartCount: int)
      requires Valid()
      modifies this
      ensures Valid()
      ensures hasCart
      ensures items == if ticketTypeId.Some? then RemoveKey(old(items), ticketTypeId.value) else old(items)
      ensures cartCount == TotalQuantity(items)
    {
      GetCart();
      if ticketTypeId.Some? && Lookup(items, ticketTypeId.value).Some? {
        RemoveKeySpec(items, ticketTypeId.value);
        var i := IndexOf(items, ticketTypeId.value).value;
        items := items[..i] + items[i + 1..];
        assert forall j :: 0 <= j < |items| ==> items[j] in old(items);
      }
      cartCount := TotalQuantity(items);
    }

    /** `update_quantity`, with the `delta` field as sent. */
    method UpdateQuantity(types: seq<TicketType>, ticketTypeId: Option<int>, delta: string) returns (r: UpdateOutcome)
      requires Valid()
      modifies this
      ensures Valid()
      ensures ticketTypeId.None? || (delta != "+1" && delta != "-1") ==>
        r == Ignored && hasCart == old(hasCart) && items == old(items)
      ensures ticketTypeId.Some? && (delta == "+1" || delta == "-1") ==> hasCart
      ensures ticketTypeId.Some? && (delta == "+1" || delta == "-1") && Lookup(old(items), ticketTypeId.value).None? ==>
        r == NotInCart && items == old(items)
      ensures (ticketTypeId.Some? && (delta == "+1" || delta == "-1") && Lookup(old(items), ticketTypeId.value).Some? &&
               LookupActive(types, ticketTypeId).None?) ==>
        r == UnknownTicketType && items == old(items)
      ensures (ticketTypeId.Some? && (delta == "+1" || delta == "-1") && Lookup(old(items), ticketTypeId.value).Some? &&
               LookupActive(types, ticketTypeId).Some?) ==>
        r == Updated &&
        items == StepLine(old(items), IndexOf(old(items), ticketTypeId.value).value,
                          LookupActive(types, ticketTypeId).value, if delta == "+1" then 1 else -1)
    {
      if ticketTypeId.None? || (delta != "+1" && delta != "-1") {
        return Ignored;
      }
      GetCart();
      var i := IndexOf(items, ticketTypeId.value);
      if i.None? {
        return NotInCart;
      }
      var found := LookupActive(types, ticketTypeId);
      if found.None? {
        return UnknownTicketType;
      }
      var tt := found.value;
      ghost var before := items;
      var currentQty := items[i.value].quantity;
      var step := if delta == "+1" then 1 else -1;
      var newQty := currentQty + step;
      if newQty < 1 {
        items := items[..i.value] + items[i.value + 1..];
      } else {
        if newQty > Available(tt) {
          newQty := Available(tt);
        }
        items := items[i.value := items[i.value].(quantity := newQty)];
      }
      assert items == StepLine(before, i.value, tt, step);
      StepLineKeepsShape(before, i.value, tt, step);
      r := Updated;
    }

    /** The loop of `cart_view`: one line per entry with its line total, and
        the cart total. */
    method CartView() returns (lines: seq<(CartItem, int)>, total: int)
      requires Valid()
      modifies this`hasCart
      ensures Valid() && hasCart && items == old(items)
      ensures |lines| == |items|
      ensures forall j :: 0 <= j < |items| ==> lines[j] == (items[j], items[j].price * items[j].quantity)
      ensures total == CartTotal(items)
    {
      GetCart();
      lines := [];
      total := 0;
      var i := 0;
      while i < |items|
        invariant 0 <= i <= |items|
        invariant hasCart
        invariant |lines| == i
        invariant forall j :: 0 <= j < i ==> lines[j] == (items[j], items[j].price * items[j].quantity)
        invariant total == CartTotal(items[..i])
      {
        var data := items[i];
        var lineTotal := data.price * data.quantity;
        total := total + lineTotal;
        lines := lines + [(data, lineTotal)];
        SumOfSnoc(items[..i], data, LineValue);
        assert items[..i + 1] == items[..i] + [data];
        i := i + 1;
      }
      assert items[..|items|] == items;
    }

    /** `checkout_view`: login required; an empty or missing cart is refused;
        a GET shows the page; a POST runs checkout and, on success only,
        empties the cart. */
    method CheckoutView(db: Database, user: User, isPost: bool, charge: PaymentRequest -> bool) returns (page: CheckoutPage)
      requires Valid() && db.Valid()
      modifies this, db`ticketTypes, db`orders, db`orderItems, db`tickets
      ensures Valid() && db.Valid()
      ensures user.Anonymous? ==> page == LoginRequired
      ensures user.Anonymous? || old(items) == [] || !isPost ==>
        items == old(items) && hasCart == old(hasCart) && db.Snapshot() == old(db.Snapshot())
      ensures user.Authenticated? && old(items) == [] ==> page == CartIsEmpty
      ensures user.Authenticated? && old(items) != [] && !isPost ==> page == ShowCheckout
      ensures user.Authenticated? && old(items) != [] && isPost ==>
        var out := CheckoutSpec(old(db.Snapshot()), ToLines(old(items)), user, charge);
        && db.Snapshot() == out.ledger
        && (out.result.Ok? ==> page == Purchased(out.result.value) && hasCart && items == [])
        && (out.result.Err? ==> page == CheckoutFailed(out.result.error) && items == old(items) && hasCart == old(hasCart))
    {
      if user.Anonymous? {
        return LoginRequired;
      }
      if items == [] {
        return CartIsEmpty;
      }
      if !isPost {
        return ShowCheckout;
      }
      var result := Checkout.Checkout(db, ToLines(items), user, charge);
      if result.Err? {
        return CheckoutFailed(result.error);
      }
      hasCart, items := true, [];
      page := Purchased(result.value);
    }
  }

  /** With no availability left, `+1` on an entry keeps it with quantity 0:
      the cap is applied after the `< 1` test. Checkout then accepts that
      line (see `ZeroQuantityLineIsCheckedOut`). */
  lemma StepCanLeaveZero(c: seq<CartItem>, i: nat, t: TicketType)
    requires KeysDistinct(c) && i < |c| && c[i].quantity >= 0
    requires Available(t) == 0
    ensures Lookup(StepLine(c, i, t, 1), c[i].ticketTypeId) == Some(c[i].(quantity := 0))
  {
    IndexOfDistinct(c, i);
    IndexOfDistinct(StepLine(c, i, t, 1), i);
  }

  /** `-1` on an entry holding 1 deletes it; the other entries stay. */
  lemma StepDownFromOneRemoves(c: seq<CartItem>, i: nat, t: TicketType)
    requires KeysDistinct(c) && i < |c| && c[i].quantity == 1
    ensures StepLine(c, i, t, -1) == RemoveKey(c, c[i].ticketTypeId)
  {
    IndexOfDistinct(c, i);
  }
}
