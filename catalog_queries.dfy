/** The ticket-type and event queries of events/repositories.py that carry
    logic of their own: lookups by id, the availability pre-check, the
    per-event availability total, the filtered listings and the integer
    part of the event statistics. A table's row with id `i` sits at
    index `i` (see `Store.Database.Valid`). */
module CatalogQueries {
  import opened Outcomes
  import opened Seqs
  import opened Catalog

  /** `TicketTypeRepository.find_by_id`. */
  function FindById(types: seq<TicketType>, id: int): (r: Option<TicketType>)
    ensures r.Some? <==> 0 <= id < |types|
    ensures r.Some? ==> r.value == types[id]
  {
    if 0 <= id < |types| then Some(types[id]) else None
  }

  /** `TicketType.objects.get(pk=id, active=True)`: missing and inactive
      types are both "not found". */
  function FindActiveById(types: seq<TicketType>, id: int): (r: Option<TicketType>)
    ensures r.Some? <==> 0 <= id < |types| && types[id].active
    ensures r.Some? ==> r.value == types[id]
  {
    if 0 <= id < |types| && types[id].active then Some(types[id]) else None
  }

  /** `TicketTypeRepository.check_availability`. It does not look at
      `active`. */
  function CheckAvailability(types: seq<TicketType>, id: int, quantity: int): bool
  {
    match FindById(types, id)
    case None => false
    case Some(t) => Available(t) >= quantity
  }

  /** The pre-check passes exactly when the type exists and either the
      quantity is not positive or `sold + quantity <= capacity`: for a
      positive quantity it agrees with the check checkout repeats under
      the row lock. */
  lemma CheckAvailabilityMeaning(types: seq<TicketType>, id: int, quantity: int)
    ensures CheckAvailability(types, id, quantity) <==>
      0 <= id < |types| && (quantity <= 0 || types[id].sold + quantity <= types[id].capacity)
  {
  }

  /** Asking for less never turns a yes into a no. */
  lemma CheckAvailabilityMonotone(types: seq<TicketType>, id: int, quantity: int, smaller: int)
    requires smaller <= quantity
    requires CheckAvailability(types, id, quantity)
    ensures CheckAvailability(types, id, smaller)
  {
  }

  /** `TicketTypeRepository.get_total_availability`: the clamped
      availability summed over ALL the event's types, inactive ones too. */
  function GetTotalAvailability(types: seq<TicketType>, eventId: int): (r: int)
    ensures r >= 0
  {
    var mine := Filter(types, OfEvent(eventId));
    SumOfNonNegative(mine, Available);
    SumOf(mine, Available)
  }

  /** The event's own total, which counts only active types, never exceeds
      the repository's total over all of them. */
  lemma TotalAvailableAtMostRepositoryTotal(e: Evento, types: seq<TicketType>)
    requires HasTicketTypes(types, e.id)
    ensures TotalAvailable(e, types) <= GetTotalAvailability(types, e.id)
  {
    SumOfFilterMono(types, OfEvent(e.id), ActiveOfEvent(e.id), Available);
  }

  /** `TicketTypeRepository.find_by_event`: the event's active types,
      cheapest first. */
  function FindByEvent(types: seq<TicketType>, eventId: int): seq<TicketType>
  {
    SortByPrice(Filter(types, ActiveOfEvent(eventId)))
  }

  function ActiveWithCapacity(eventId: int): TicketType -> bool
  {
    (t: TicketType) => t.eventId == eventId && t.active && t.capacity != 0
  }

  /** `TicketTypeRepository.find_with_availability`: active types whose
      capacity is not zero, cheapest first; `sold` is not consulted. */
  function FindWithAvailability(types: seq<TicketType>, eventId: int): seq<TicketType>
  {
    SortByPrice(Filter(types, ActiveWithCapacity(eventId)))
  }

  /** Membership in a sorted filter is membership in the table plus the
      filter's condition. */
  lemma SortedFilterMembers(types: seq<TicketType>, p: TicketType -> bool, t: TicketType)
    ensures SortedByPrice(SortByPrice(Filter(types, p)))
    ensures t in SortByPrice(Filter(types, p)) <==> t in types && p(t)
  {
    var f := Filter(types, p);
    var r := SortByPrice(f);
    assert t in r <==> t in multiset(r);
    assert t in f <==> t in multiset(f);
    if t in types && p(t) {
      var i :| 0 <= i < |types| && types[i] == t;
      assert t in f;
    }
  }

  lemma FindByEventSpec(types: seq<TicketType>, eventId: int, t: TicketType)
    ensures SortedByPrice(FindByEvent(types, eventId))
    ensures t in FindByEvent(types, eventId) <==> t in types && t.eventId == eventId && t.active
  {
    SortedFilterMembers(types, ActiveOfEvent(eventId), t);
  }

  lemma FindWithAvailabilitySpec(types: seq<TicketType>, eventId: int, t: TicketType)
    ensures SortedByPrice(FindWithAvailability(types, eventId))
    ensures t in FindWithAvailability(types, eventId) <==>
      t in types && t.eventId == eventId && t.active && t.capacity != 0
  {
    SortedFilterMembers(types, ActiveWithCapacity(eventId), t);
  }

  /** Every type the event model lists as available is also listed by the
      repository (their conditions differ only in how they treat `sold`). */
  lemma AvailableTypesAreListedByRepository(e: Evento, types: seq<TicketType>, t: TicketType)
    requires WellFormed(t)
    requires t in GetAvailableTicketTypes(e, types)
    ensures t in FindWithAvailability(types, e.id)
  {
    GetAvailableTicketTypesSpec(e, types, t);
    FindWithAvailabilitySpec(types, e.id, t);
  }

  /** The converse fails: a sold-out active type is still listed "with
      availability" by the repository. */
  lemma SoldOutTypeListedWithAvailability()
    ensures var t := TicketType(0, 7, "General", 1000, 10, 10, true);
      t in FindWithAvailability([t], 7) && Available(t) == 0
  {
    var t := TicketType(0, 7, "General", 1000, 10, 10, true);
    FindWithAvailabilitySpec([t], 7, t);
  }

  // ---- EventRepository.get_event_stats, integer part ----

  datatype EventStats = EventStats(
    eventId: int,
    totalCapacity: int,
    totalSold: int,
    totalAvailable: int,
    ticketTypesCount: nat)

  function CapacityOf(t: TicketType): int { t.capacity }

  function SoldOf(t: TicketType): int { t.sold }

  /** `EventRepository.get_event_stats` without the float occupancy
      percentage: `None` stands for the empty dict of a missing event. */
  function GetEventStats(eventos: seq<Evento>, types: seq<TicketType>, eventId: int): Option<EventStats>
  {
    if !(0 <= eventId < |eventos|) then None
    else
      var mine := Filter(types, OfEvent(eventId));
      var capacity := SumOf(mine, CapacityOf);
      var sold := SumOf(mine, SoldOf);
      Some(EventStats(eventId, capacity, sold, capacity - sold, |mine|))
  }

  /** Over any list, capacity minus sold is at most the clamped
      availability, and equal to it when nothing is oversold. */
  lemma {:induction false} UnclampedAtMostClamped(s: seq<TicketType>)
    ensures SumOf(s, CapacityOf) - SumOf(s, SoldOf) <= SumOf(s, Available)
    ensures (forall i :: 0 <= i < |s| ==> s[i].sold <= s[i].capacity) ==>
      SumOf(s, CapacityOf) - SumOf(s, SoldOf) == SumOf(s, Available)
  {
    if s != [] {
      UnclampedAtMostClamped(s[1..]);
      if forall i :: 0 <= i < |s| ==> s[i].sold <= s[i].capacity {
        assert forall i :: 0 <= i < |s[1..]| ==> s[1..][i] == s[i + 1];
      }
    }
  }

  /** A missing event yields no statistics; for an existing one
      `total_available` is capacity minus sold, unclamped, so it can be
      below the repository's clamped total (and even negative) when a type
      is oversold, and equals it otherwise. */
  lemma EventStatsSpec(eventos: seq<Evento>, types: seq<TicketType>, eventId: int)
    ensures GetEventStats(eventos, types, eventId).None? <==> !(0 <= eventId < |eventos|)
    ensures GetEventStats(eventos, types, eventId).Some? ==>
      var st := GetEventStats(eventos, types, eventId).value;
      st.totalAvailable == st.totalCapacity - st.totalSold &&
      st.totalAvailable <= GetTotalAvailability(types, eventId) &&
      ((forall t :: t in types && t.eventId == eventId ==> t.sold <= t.capacity) ==>
         st.totalAvailable == GetTotalAvailability(types, eventId))
  {
    if 0 <= eventId < |eventos| {
      var mine := Filter(types, OfEvent(eventId));
      UnclampedAtMostClamped(mine);
    }
  }

  /** The unclamped figure really can go negative. */
  lemma EventStatsCanBeNegative()
    ensures var e := Evento(0, "Concierto", 0, 1, None, 0, 0, Publicado);
      var t := TicketType(0, 0, "General", 1000, 5, 8, true);
      GetEventStats([e], [t], 0) == Some(EventStats(0, 5, 8, -3, 1))
  {
  }
}
