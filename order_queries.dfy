/** Ticket and hold repositories (orders/repositories.py): check-in, the
    attendance counts and the ticket-hold queries and reaper. The current
    time is a parameter. */
module OrderQueries {
  import opened Outcomes
  import opened Seqs
  import opened OrderModels
  import opened Store
  import opened Checkout

  // ---- TicketRepository ----

  /** `TicketRepository.mark_as_used`: the ticket with code `code` is checked
      in if it exists and was not used yet. */
  method MarkAsUsed(db: Database, code: int) returns (ok: bool)
    requires db.Valid()
    modifies db`tickets
    ensures ok <==> 0 <= code < |old(db.tickets)| && !old(db.tickets[code].isUsed)
    ensures ok ==> db.tickets == old(db.tickets)[code := old(db.tickets[code]).(isUsed := true)]
    ensures !ok ==> db.tickets == old(db.tickets)
    ensures db.Valid()
    ensures Accounted(old(db.Snapshot())) ==> Accounted(db.Snapshot())
  {
    if 0 <= code < |db.tickets| && !db.tickets[code].isUsed {
      var before := db.tickets;
      db.tickets := db.tickets[code := db.tickets[code].(isUsed := true)];
      forall k | 0 <= k < |db.ticketTypes|
        ensures SumOf(db.tickets, TicketOfType(k)) == SumOf(before, TicketOfType(k))
      {
        SumOfPointwise(db.tickets, TicketOfType(k), before, TicketOfType(k));
      }
      ok := true;
    } else {
      ok := false;
    }
  }

  /** A ticket is admitted once: checking it in a second time is refused and
      changes nothing. */
  method MarkTwice(db: Database, code: int) returns (first: bool, second: bool)
    requires db.Valid()
    modifies db`tickets
    ensures first <==> 0 <= code < |old(db.tickets)| && !old(db.tickets[code].isUsed)
    ensures !second
    ensures 0 <= code < |db.tickets| ==> db.tickets[code].isUsed
    ensures db.Valid()
  {
    first := MarkAsUsed(db, code);
    second := MarkAsUsed(db, code);
  }

  /** The three counts of `get_event_attendance_stats` (the rate, a float,
      is left out). */
  datatype AttendanceStats = AttendanceStats(totalTickets: nat, ticketsUsed: nat, ticketsUnused: nat)

  /** The event's tickets whose order is paid. */
  function PaidTicketOf(orders: seq<Order>, eventId: int): Ticket -> bool
  {
    (t: Ticket) => t.eventId == eventId && 0 <= t.orderId < |orders| && orders[t.orderId].status == Paid
  }

  function Used(): Ticket -> bool { (t: Ticket) => t.isUsed }

  function Unused(): Ticket -> bool { (t: Ticket) => !t.isUsed }

  /** `TicketRepository.get_event_attendance_stats`: the counts over the
      event's paid tickets; the used and unused counts add up to the
      total. */
  function GetEventAttendanceStats(tickets: seq<Ticket>, orders: seq<Order>, eventId: int): (r: AttendanceStats)
    ensures r.totalTickets == r.ticketsUsed + r.ticketsUnused
  {
    var paid := Filter(tickets, PaidTicketOf(orders, eventId));
    FilterPartition(paid, Used(), Unused());
    assert |multiset(Filter(paid, Used()))| + |multiset(Filter(paid, Unused()))| == |multiset(paid)|;
    AttendanceStats(|paid|, |Filter(paid, Used())|, |Filter(paid, Unused())|)
  }

  // ---- TicketHoldRepository ----

  function ActiveAt(now: int): TicketHold -> bool
  {
    (h: TicketHold) => IsActive(h, now)
  }

  function ExpiredAt(now: int): TicketHold -> bool
  {
    (h: TicketHold) => h.expiresAt <= now
  }

  /** `find_active_holds`: `expires_at > now`. */
  function FindActiveHolds(holds: seq<TicketHold>, now: int): seq<TicketHold>
  {
    Filter(holds, ActiveAt(now))
  }

  /** `find_expired_holds`: `expires_at <= now`. */
  function FindExpiredHolds(holds: seq<TicketHold>, now: int): seq<TicketHold>
  {
    Filter(holds, ExpiredAt(now))
  }

  /** At any instant the active and the expired holds split the table: every
      hold is in exactly one of the two, as often as in the table. */
  lemma HoldsPartition(holds: seq<TicketHold>, now: int)
    ensures multiset(FindActiveHolds(holds, now)) + multiset(FindExpiredHolds(holds, now)) == multiset(holds)
    ensures forall h :: h in FindActiveHolds(holds, now) ==> IsActive(h, now)
    ensures forall h :: h in FindExpiredHolds(holds, now) ==> !IsActive(h, now)
  {
    FilterPartition(holds, ActiveAt(now), ExpiredAt(now));
  }

  function SessionActive(sessionKey: string, now: int): TicketHold -> bool
  {
    (h: TicketHold) => h.sessionKey == sessionKey && IsActive(h, now)
  }

  function TypeActive(ticketTypeId: int, now: int): TicketHold -> bool
  {
    (h: TicketHold) => h.ticketTypeId == ticketTypeId && IsActive(h, now)
  }

  /** `find_by_session`. */
  function FindBySession(holds: seq<TicketHold>, sessionKey: string, now: int): seq<TicketHold>
  {
    Filter(holds, SessionActive(sessionKey, now))
  }

  /** `find_by_ticket_type`. */
  function FindByTicketType(holds: seq<TicketHold>, ticketTypeId: int, now: int): seq<TicketHold>
  {
    Filter(holds, TypeActive(ticketTypeId, now))
  }

  /** A session sees exactly its own live holds. */
  lemma FindBySessionSpec(holds: seq<TicketHold>, sessionKey: string, now: int, h: TicketHold)
    ensures h in FindBySession(holds, sessionKey, now) <==>
      h in holds && h.sessionKey == sessionKey && h.expiresAt > now
  {
    if h in holds && h.sessionKey == sessionKey && h.expiresAt > now {
      var i :| 0 <= i < |holds| && holds[i] == h;
    }
  }

  /** A ticket type's live holds, and nothing else. */
  lemma FindByTicketTypeSpec(holds: seq<TicketHold>, ticketTypeId: int, now: int, h: TicketHold)
    ensures h in FindByTicketType(holds, ticketTypeId, now) <==>
      h in holds && h.ticketTypeId == ticketTypeId && h.expiresAt > now
  {
    if h in holds && h.ticketTypeId == ticketTypeId && h.expiresAt > now {
      var i :| 0 <= i < |holds| && holds[i] == h;
    }
  }

  function HeldQuantity(h: TicketHold): int { h.quantity }

  /** `get_total_held_quantity`: the `Sum` aggregate is null over no rows,
      and `or 0` turns that into 0. */
  function GetTotalHeldQuantity(holds: seq<TicketHold>, ticketTypeId: int, now: int): nat
  {
    var live := FindByTicketType(holds, ticketTypeId, now);
    var aggregate: Option<int> := if live == [] then None else Some(SumOf(live, HeldQuantity));
    match aggregate
    case None => 0
    case Some(total) => assert forall x :: x in live ==> HeldQuantity(x) >= 0; SumOfNonNegative(live, HeldQuantity); total
  }

  /** The held quantity is the sum over the type's live holds, 0 when there
      are none, and at least the quantity of any one of them. */
  lemma {:induction false} GetTotalHeldQuantitySpec(holds: seq<TicketHold>, ticketTypeId: int, now: int)
    ensures GetTotalHeldQuantity(holds, ticketTypeId, now) == SumOf(FindByTicketType(holds, ticketTypeId, now), HeldQuantity)
    ensures (forall j :: 0 <= j < |holds| ==> !(holds[j].ticketTypeId == ticketTypeId && IsActive(holds[j], now))) ==>
      GetTotalHeldQuantity(holds, ticketTypeId, now) == 0
  {
    FilterEmptyIff(holds, TypeActive(ticketTypeId, now));
  }

  /** `cleanup_expired_holds`: deletes the holds with `expires_at <= now` and
      returns how many it deleted. */
  method CleanupExpiredHolds(db: Database, now: int) returns (deleted: int)
    modifies db`holds
    ensures db.holds == FindActiveHolds(old(db.holds), now)
    ensures deleted == |FindExpiredHolds(old(db.holds), now)|
    ensures |old(db.holds)| == |db.holds| + deleted
  {
    var expired := FindExpiredHolds(db.holds, now);
    HoldsPartition(db.holds, now);
    assert |multiset(FindActiveHolds(db.holds, now))| + |multiset(expired)| == |multiset(db.holds)|;
    db.holds := FindActiveHolds(db.holds, now);
    deleted := |expired|;
  }

  /** Reaping at `now` changes nothing any live query sees at `now`: each
      session's holds and each type's held quantity stay the same; and a
      second reaping at the same instant finds nothing to delete. */
  lemma CleanupKeepsLiveView(holds: seq<TicketHold>, now: int, sessionKey: string, ticketTypeId: int)
    ensures FindBySession(FindActiveHolds(holds, now), sessionKey, now) == FindBySession(holds, sessionKey, now)
    ensures GetTotalHeldQuantity(FindActiveHolds(holds, now), ticketTypeId, now) == GetTotalHeldQuantity(holds, ticketTypeId, now)
    ensures FindExpiredHolds(FindActiveHolds(holds, now), now) == []
  {
    FilterFilter(holds, ActiveAt(now), SessionActive(sessionKey, now), SessionActive(sessionKey, now));
    FilterFilter(holds, ActiveAt(now), TypeActive(ticketTypeId, now), TypeActive(ticketTypeId, now));
    GetTotalHeldQuantitySpec(FindActiveHolds(holds, now), ticketTypeId, now);
    GetTotalHeldQuantitySpec(holds, ticketTypeId, now);
    FilterEmptyIff(FindActiveHolds(holds, now), ExpiredAt(now));
  }
}
