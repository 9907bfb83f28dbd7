/** Events and their ticket types (events/models.py): the stock counters,
    the availability of one ticket type and the per-event summaries the
    catalogue shows. Prices are integer cents (the columns are
    `DecimalField(decimal_places=2)`). A table is a sequence in the
    database's iteration order. */
module Catalog {
  import opened Outcomes
  import opened Seqs

  datatype Estado = Borrador | Publicado | Pausado

  datatype Evento = Evento(
    id: int,
    nombre: string,
    fecha: int,               // a day number
    categoriaId: int,
    organizadorId: Option<int>,
    cuposDisponibles: nat,    // PositiveIntegerField
    precio: int,              // cents
    estado: Estado)

  datatype TicketType = TicketType(
    id: int,
    eventId: int,
    name: string,
    price: int,               // cents
    capacity: int,
    sold: int,
    active: bool)

  /** The three CHECK constraints the table declares: `sold >= 0`,
      `capacity >= 0`, `price >= 0`. */
  predicate WellFormed(t: TicketType)
  {
    t.sold >= 0 && t.capacity >= 0 && t.price >= 0
  }

  /** `TicketType.available`: the unsold units, never below zero. */
  function Available(t: TicketType): (r: int)
    ensures r >= 0
    ensures r >= t.capacity - t.sold
    ensures r == 0 || r == t.capacity - t.sold
  {
    if t.capacity - t.sold > 0 then t.capacity - t.sold else 0
  }

  /** On a row that satisfies its constraints, availability is at most the
      capacity, and it is zero exactly when the type is sold out. */
  lemma AvailableWithinCapacity(t: TicketType)
    requires WellFormed(t)
    ensures Available(t) <= t.capacity
    ensures Available(t) == 0 <==> t.sold >= t.capacity
  {
  }

  /** `Evento.esta_agotado`. */
  function EstaAgotado(e: Evento): (r: bool)
    ensures r <==> e.cuposDisponibles == 0
  {
    e.cuposDisponibles <= 0
  }

  // ---- the ticket types of one event ----

  function OfEvent(eventId: int): TicketType -> bool
  {
    (t: TicketType) => t.eventId == eventId
  }

  function ActiveOfEvent(eventId: int): TicketType -> bool
  {
    (t: TicketType) => t.eventId == eventId && t.active
  }

  /** `event.ticket_types.exists()`: any type of the event, active or not. */
  predicate HasTicketTypes(types: seq<TicketType>, eventId: int)
  {
    Filter(types, OfEvent(eventId)) != []
  }

  lemma HasTicketTypesIff(types: seq<TicketType>, eventId: int)
    ensures HasTicketTypes(types, eventId) <==> exists i :: 0 <= i < |types| && types[i].eventId == eventId
  {
    FilterEmptyIff(types, OfEvent(eventId));
  }

  /** `Evento.total_available`: the deprecated `cupos_disponibles` when the
      event has no ticket types, otherwise the availability summed over its
      active types. */
  function TotalAvailable(e: Evento, types: seq<TicketType>): (r: int)
    ensures r >= 0
    ensures HasTicketTypes(types, e.id) ==> r == SumOf(Filter(types, ActiveOfEvent(e.id)), Available)
    ensures !HasTicketTypes(types, e.id) ==> r == e.cuposDisponibles
  {
    if !HasTicketTypes(types, e.id) then e.cuposDisponibles
    else
      var active := Filter(types, ActiveOfEvent(e.id));
      SumOfNonNegative(active, Available);
      SumOf(active, Available)
  }

  /** `r` is the price of one of `s` and no price in `s` is lower. */
  predicate IsLowestPrice(s: seq<TicketType>, r: int)
  {
    (exists i :: 0 <= i < |s| && s[i].price == r) &&
    (forall i :: 0 <= i < |s| ==> r <= s[i].price)
  }

  /** The lowest price in a non-empty list of ticket types. */
  function MinPrice(s: seq<TicketType>): (r: int)
    requires s != []
    ensures IsLowestPrice(s, r)
  {
    if |s| == 1 then s[0].price
    else
      var m := MinPrice(s[1..]);
      if s[0].price <= m then s[0].price else m
  }

  /** `Evento.min_ticket_price`: `precio` when the event has no ticket types
      or none of them is active, otherwise the lowest active price. */
  function MinTicketPrice(e: Evento, types: seq<TicketType>): (r: int)
    ensures Filter(types, ActiveOfEvent(e.id)) == [] ==> r == e.precio
    ensures Filter(types, ActiveOfEvent(e.id)) != [] ==> IsLowestPrice(Filter(types, ActiveOfEvent(e.id)), r)
  {
    if !HasTicketTypes(types, e.id) then
      ActiveIsOfEvent(types, e.id);
      e.precio
    else
      var active := Filter(types, ActiveOfEvent(e.id));
      if active == [] then e.precio
      else MinPrice(active)
  }

  /** An event without any ticket type has no active ticket type either. */
  lemma ActiveIsOfEvent(types: seq<TicketType>, eventId: int)
    requires !HasTicketTypes(types, eventId)
    ensures Filter(types, ActiveOfEvent(eventId)) == []
  {
    FilterEmptyIff(types, OfEvent(eventId));
    FilterEmptyIff(types, ActiveOfEvent(eventId));
  }

  // ---- ORDER BY price ----

  predicate SortedByPrice(s: seq<TicketType>)
  {
    forall i, j :: 0 <= i < j < |s| ==> s[i].price <= s[j].price
  }

  /** A price no higher than the head of a sorted list can go in front. */
  lemma ConsSorted(x: TicketType, s: seq<TicketType>)
    requires SortedByPrice(s)
    requires s != [] ==> x.price <= s[0].price
    ensures SortedByPrice([x] + s)
  {
    var r := [x] + s;
    forall i, j | 0 <= i < j < |r|
      ensures r[i].price <= r[j].price
    {
      if i == 0 {
        assert r[j] == s[j - 1];
        assert s[0].price <= s[j - 1].price;
      } else {
        assert r[i] == s[i - 1] && r[j] == s[j - 1];
      }
    }
  }

  /** `t` placed before the first ticket type dearer than it. */
  function InsertByPrice(t: TicketType, s: seq<TicketType>): (r: seq<TicketType>)
    ensures multiset(r) == multiset(s) + multiset{t}
  {
    if s == [] then [t]
    else if t.price <= s[0].price then [t] + s
    else
      assert s == [s[0]] + s[1..];
      [s[0]] + InsertByPrice(t, s[1..])
  }

  /** Inserting into a list sorted by price keeps it sorted. */
  lemma {:induction false} InsertByPriceSorted(t: TicketType, s: seq<TicketType>)
    requires SortedByPrice(s)
    ensures SortedByPrice(InsertByPrice(t, s))
    ensures InsertByPrice(t, s)[0] == t || (s != [] && InsertByPrice(t, s)[0] == s[0])
  {
    if s == [] {
    } else if t.price <= s[0].price {
      ConsSorted(t, s);
    } else {
      var tail := s[1..];
      assert SortedByPrice(tail) by {
        assert forall i :: 0 <= i < |tail| ==> tail[i] == s[i + 1];
      }
      InsertByPriceSorted(t, tail);
      var rest := InsertByPrice(t, tail);
      assert s[0].price <= rest[0].price by {
        if rest[0] != t {
          assert rest[0] == s[1];
        }
      }
      ConsSorted(s[0], rest);
    }
  }

  /** `.order_by('price')`: the same ticket types, cheapest first. */
  function SortByPrice(s: seq<TicketType>): (r: seq<TicketType>)
    ensures SortedByPrice(r)
    ensures multiset(r) == multiset(s)
  {
    if s == [] then []
    else
      assert s == [s[0]] + s[1..];
      var sorted := SortByPrice(s[1..]);
      InsertByPriceSorted(s[0], sorted);
      InsertByPrice(s[0], sorted)
  }

  function Bookable(eventId: int): TicketType -> bool
  {
    (t: TicketType) => t.eventId == eventId && t.active && t.capacity > t.sold
  }

  /** `Evento.get_available_ticket_types`. */
  function GetAvailableTicketTypes(e: Evento, types: seq<TicketType>): seq<TicketType>
  {
    if !HasTicketTypes(types, e.id) then []
    else SortByPrice(Filter(types, Bookable(e.id)))
  }

  /** The list holds exactly the event's active types with unsold capacity,
      cheapest first; with no types at all it is empty, which is the same
      statement. */
  lemma GetAvailableTicketTypesSpec(e: Evento, types: seq<TicketType>, t: TicketType)
    ensures SortedByPrice(GetAvailableTicketTypes(e, types))
    ensures t in GetAvailableTicketTypes(e, types) <==>
      t in types && t.eventId == e.id && t.active && t.capacity > t.sold
  {
    var r := GetAvailableTicketTypes(e, types);
    if HasTicketTypes(types, e.id) {
      var f := Filter(types, Bookable(e.id));
      assert t in r <==> t in multiset(r);
      assert t in f <==> t in multiset(f);
      if t in types && Bookable(e.id)(t) {
        var i :| 0 <= i < |types| && types[i] == t;
        assert t in f;
      }
    } else {
      HasTicketTypesIff(types, e.id);
    }
  }

  /** ASCII case folding, the comparison behind `name__iexact`. */
  function Fold(c: char): char
  {
    if 'A' <= c <= 'Z' then (c as int - 'A' as int + 'a' as int) as char else c
  }

  predicate SameIgnoringCase(a: string, b: string)
  {
    |a| == |b| && forall i :: 0 <= i < |a| ==> Fold(a[i]) == Fold(b[i])
  }

  function NamedActive(eventId: int, name: string): TicketType -> bool
  {
    (t: TicketType) => t.eventId == eventId && t.active && SameIgnoringCase(t.name, name)
  }

  /** `Evento.get_ticket_by_name`: the cheapest active type whose name
      matches ignoring case, or none. */
  function GetTicketByName(e: Evento, types: seq<TicketType>, name: string): Option<TicketType>
  {
    if !HasTicketTypes(types, e.id) then None
    else
      var matching := SortByPrice(Filter(types, NamedActive(e.id, name)));
      if matching == [] then None else Some(matching[0])
  }

  lemma GetTicketByNameSpec(e: Evento, types: seq<TicketType>, name: string)
    ensures GetTicketByName(e, types, name).Some? ==>
      var t := GetTicketByName(e, types, name).value;
      t in types && t.eventId == e.id && t.active && SameIgnoringCase(t.name, name) &&
      forall u :: u in types && NamedActive(e.id, name)(u) ==> t.price <= u.price
    ensures GetTicketByName(e, types, name).None? ==>
      forall i :: 0 <= i < |types| ==> !NamedActive(e.id, name)(types[i])
  {
    var f := Filter(types, NamedActive(e.id, name));
    if HasTicketTypes(types, e.id) {
      var m := SortByPrice(f);
      if m == [] {
        assert |f| == |multiset(f)| == 0;
        FilterEmptyIff(types, NamedActive(e.id, name));
      } else {
        assert m[0] in multiset(m);
        forall u | u in types && NamedActive(e.id, name)(u) ensures m[0].price <= u.price {
          var i :| 0 <= i < |types| && types[i] == u;
          assert u in f;
          assert u in multiset(m);
          var j :| 0 <= j < |m| && m[j] == u;
        }
      }
    } else {
      HasTicketTypesIff(types, e.id);
      FilterEmptyIff(types, OfEvent(e.id));
      FilterEmptyIff(types, NamedActive(e.id, name));
    }
  }
}
