/** Event and ticket-type services (events/services.py): creating events,
    the `estado` state machine borrador / publicado / pausado, and creating
    and deactivating ticket types. Today's date is a parameter. */
module EventServices {
  import opened Outcomes
  import opened Seqs
  import opened Catalog
  import opened Store

  datatype EventError =
    | DateInPast
    | CategoryNotFound
    | EventNotFound
    | AlreadyPublished
    | NoActiveTicketType
    | NotPublished
    | NotPaused
    | NegativePrice
    | NonPositiveCapacity
    | TicketTypeNotFound
    | IntegrityViolation

  // ---- create_event ----

  /** `create_event` as written: after the date and category checks it
      inserts an event without `precio`, a non-null decimal column with no
      default, so the insert is always rejected. */
  function CreateEventAsWritten(categorias: set<int>, today: int, fecha: int, categoriaId: int): Result<Evento, EventError>
  {
    if fecha < today then Err(DateInPast)
    else if categoriaId !in categorias then Err(CategoryNotFound)
    else Err(IntegrityViolation)
  }

  /** No input makes the written `create_event` create an event. */
  lemma CreateEventAsWrittenNeverCreates(categorias: set<int>, today: int, fecha: int, categoriaId: int)
    ensures CreateEventAsWritten(categorias, today, fecha, categoriaId).Err?
    ensures fecha >= today && categoriaId in categorias ==>
      CreateEventAsWritten(categorias, today, fecha, categoriaId) == Err(IntegrityViolation)
  {
  }

  /** `create_event` with the price it needs: a date before today or an
      unknown category is refused, a negative `cupos_disponibles` violates
      its column's CHECK constraint, and otherwise a new event is appended
      in `borrador`. */
  method CreateEvent(db: Database, organizer: Option<int>, nombre: string, fecha: int, categoriaId: int,
                     cupos: int, precio: int, today: int) returns (r: Result<Evento, EventError>)
    requires db.Valid()
    modifies db`eventos
    ensures db.Valid()
    ensures fecha < today ==> r == Err(DateInPast)
    ensures fecha >= today && categoriaId !in db.categorias ==> r == Err(CategoryNotFound)
    ensures fecha >= today && categoriaId in db.categorias && cupos < 0 ==> r == Err(IntegrityViolation)
    ensures r.Err? ==> db.eventos == old(db.eventos)
    ensures r.Ok? <==> fecha >= today && categoriaId in db.categorias && cupos >= 0
    ensures r.Ok? ==>
      && r.value == Evento(|old(db.eventos)|, nombre, fecha, categoriaId, organizer, cupos, precio, Borrador)
      && db.eventos == old(db.eventos) + [r.value]
  {
    if fecha < today {
      return Err(DateInPast);
    }
    if categoriaId !in db.categorias {
      return Err(CategoryNotFound);
    }
    if cupos < 0 {
      return Err(IntegrityViolation);
    }
    var evento := Evento(|db.eventos|, nombre, fecha, categoriaId, organizer, cupos, precio, Borrador);
    db.eventos := db.eventos + [evento];
    r := Ok(evento);
  }

  // ---- estado transitions ----

  datatype Transition = Publish | Pause | Resume | Cancel

  /** `evento.ticket_types.filter(active=True).exists()`. */
  predicate HasActiveTicketType(types: seq<TicketType>, eventId: int)
  {
    Filter(types, ActiveOfEvent(eventId)) != []
  }

  lemma HasActiveTicketTypeIff(types: seq<TicketType>, eventId: int)
    ensures HasActiveTicketType(types, eventId) <==>
      exists j :: 0 <= j < |types| && types[j].eventId == eventId && types[j].active
  {
    FilterEmptyIff(types, ActiveOfEvent(eventId));
  }

  /** The guard and target of each transition, for an existing event. */
  function Step(op: Transition, estado: Estado, hasActiveType: bool): Result<Estado, EventError>
  {
    match op
    case Publish =>
      if estado == Publicado then Err(AlreadyPublished)
      else if !hasActiveType then Err(NoActiveTicketType)
      else Ok(Publicado)
    case Pause => if estado != Publicado then Err(NotPublished) else Ok(Pausado)
    case Resume => if estado != Pausado then Err(NotPaused) else Ok(Publicado)
    case Cancel => Ok(Borrador)
  }

  /** The state machine: pausing needs `publicado`, resuming needs
      `pausado`, publishing needs a non-published event with an active
      ticket type, and cancelling always returns to `borrador`. Pausing and
      then resuming restores a published event; publishing a paused event
      with an active type resumes it as well. */
  lemma StepSpec(op: Transition, estado: Estado, hasActiveType: bool)
    ensures Step(Pause, estado, hasActiveType).Ok? <==> estado == Publicado
    ensures Step(Resume, estado, hasActiveType).Ok? <==> estado == Pausado
    ensures Step(Publish, estado, hasActiveType).Ok? <==> estado != Publicado && hasActiveType
    ensures Step(Cancel, estado, hasActiveType) == Ok(Borrador)
    ensures Step(op, estado, hasActiveType).Ok? && op != Cancel ==>
      (Step(op, estado, hasActiveType).value == Publicado) == (op != Pause)
    ensures estado == Publicado ==>
      Step(Resume, Step(Pause, estado, hasActiveType).value, hasActiveType) == Ok(Publicado)
    ensures estado == Pausado && hasActiveType ==>
      Step(Publish, estado, hasActiveType) == Step(Resume, estado, hasActiveType)
  {
  }

  /** The shared shape of `publish_event`, `pause_event`, `resume_event` and
      `cancel_event`: look the event up, apply the guard, then assign
      `estado` and save. */
  method ApplyTransition(db: Database, op: Transition, eventId: int) returns (r: Result<Evento, EventError>)
    requires db.Valid()
    modifies db`eventos
    ensures db.Valid()
    ensures !(0 <= eventId < |old(db.eventos)|) ==> r == Err(EventNotFound) && db.eventos == old(db.eventos)
    ensures 0 <= eventId < |old(db.eventos)| ==>
      match Step(op, old(db.eventos)[eventId].estado, HasActiveTicketType(db.ticketTypes, eventId))
      case Err(e) => r == Err(e) && db.eventos == old(db.eventos)
      case Ok(next) =>
        && r == Ok(old(db.eventos)[eventId].(estado := next))
        && db.eventos == old(db.eventos)[eventId := r.value]
  {
    if !(0 <= eventId < |db.eventos|) {
      return Err(EventNotFound);
    }
    var evento := db.eventos[eventId];
    var next: Estado;
    match op {
      case Publish =>
        if evento.estado == Publicado {
          return Err(AlreadyPublished);
        }
        var activeTypes := Filter(db.ticketTypes, ActiveOfEvent(eventId));
        if activeTypes == [] {
          return Err(NoActiveTicketType);
        }
        next := Publicado;
      case Pause =>
        if evento.estado != Publicado {
          return Err(NotPublished);
        }
        next := Pausado;
      case Resume =>
        if evento.estado != Pausado {
          return Err(NotPaused);
        }
        next := Publicado;
      case Cancel =>
        next := Borrador;
    }
    evento := evento.(estado := next);
    db.eventos := db.eventos[eventId := evento];
    r := Ok(evento);
  }

  /** `publish_event`. */
  method PublishEvent(db: Database, eventId: int) returns (r: Result<Evento, EventError>)
    requires db.Valid()
    modifies db`eventos
    ensures db.Valid()
    ensures !(0 <= eventId < |old(db.eventos)|) ==> r == Err(EventNotFound)
    ensures 0 <= eventId < |old(db.eventos)| && old(db.eventos)[eventId].estado == Publicado ==> r == Err(AlreadyPublished)
    ensures (0 <= eventId < |old(db.eventos)| && old(db.eventos)[eventId].estado != Publicado &&
      !(exists j :: 0 <= j < |db.ticketTypes| && db.ticketTypes[j].eventId == eventId && db.ticketTypes[j].active)) ==>
      r == Err(NoActiveTicketType)
    ensures r.Err? ==> db.eventos == old(db.eventos)
    ensures r.Ok? ==>
      && 0 <= eventId < |old(db.eventos)|
      && (exists j :: 0 <= j < |db.ticketTypes| && db.ticketTypes[j].eventId == eventId && db.ticketTypes[j].active)
      && r.value == old(db.eventos)[eventId].(estado := Publicado)
      && db.eventos == old(db.eventos)[eventId := r.value]
  {
    HasActiveTicketTypeIff(db.ticketTypes, eventId);
    r := ApplyTransition(db, Publish, eventId);
  }

  /** `pause_event`: only a published event can be paused. */
  method PauseEvent(db: Database, eventId: int) returns (r: Result<Evento, EventError>)
    requires db.Valid()
    modifies db`eventos
    ensures db.Valid()
    ensures r.Ok? <==> 0 <= eventId < |old(db.eventos)| && old(db.eventos)[eventId].estado == Publicado
    ensures !(0 <= eventId < |old(db.eventos)|) ==> r == Err(EventNotFound)
    ensures 0 <= eventId < |old(db.eventos)| && old(db.eventos)[eventId].estado != Publicado ==> r == Err(NotPublished)
    ensures r.Err? ==> db.eventos == old(db.eventos)
    ensures r.Ok? ==> r.value == old(db.eventos)[eventId].(estado := Pausado) && db.eventos == old(db.eventos)[eventId := r.value]
  {
    r := ApplyTransition(db, Pause, eventId);
  }

  /** `resume_event`: only a paused event can be resumed. */
  method ResumeEvent(db: Database, eventId: int) returns (r: Result<Evento, EventError>)
    requires db.Valid()
    modifies db`eventos
    ensures db.Valid()
    ensures r.Ok? <==> 0 <= eventId < |old(db.eventos)| && old(db.eventos)[eventId].estado == Pausado
    ensures !(0 <= eventId < |old(db.eventos)|) ==> r == Err(EventNotFound)
    ensures 0 <= eventId < |old(db.eventos)| && old(db.eventos)[eventId].estado != Pausado ==> r == Err(NotPaused)
    ensures r.Err? ==> db.eventos == old(db.eventos)
    ensures r.Ok? ==> r.value == old(db.eventos)[eventId].(estado := Publicado) && db.eventos == old(db.eventos)[eventId := r.value]
  {
    r := ApplyTransition(db, Resume, eventId);
  }

  /** `cancel_event`: any existing event goes back to `borrador`. */
  method CancelEvent(db: Database, eventId: int) returns (r: Result<Evento, EventError>)
    requires db.Valid()
    modifies db`eventos
    ensures db.Valid()
    ensures r.Ok? <==> 0 <= eventId < |old(db.eventos)|
    ensures r.Err? ==> r == Err(EventNotFound) && db.eventos == old(db.eventos)
    ensures r.Ok? ==> r.value == old(db.eventos)[eventId].(estado := Borrador) && db.eventos == old(db.eventos)[eventId := r.value]
  {
    r := ApplyTransition(db, Cancel, eventId);
  }

  // ---- EventTicketService ----

  /** `create_ticket_type`: the event must exist, the price must not be
      negative and the capacity must be positive; the new type has sold
      nothing and is active. */
  method CreateTicketType(db: Database, eventId: int, name: string, price: int, capacity: int) returns (r: Result<TicketType, EventError>)
    requires db.Valid()
    modifies db`ticketTypes
    ensures db.Valid()
    ensures !(0 <= eventId < |db.eventos|) ==> r == Err(EventNotFound)
    ensures 0 <= eventId < |db.eventos| && price < 0 ==> r == Err(NegativePrice)
    ensures 0 <= eventId < |db.eventos| && price >= 0 && capacity <= 0 ==> r == Err(NonPositiveCapacity)
    ensures r.Ok? <==> 0 <= eventId < |db.eventos| && price >= 0 && capacity > 0
    ensures r.Err? ==> db.ticketTypes == old(db.ticketTypes)
    ensures r.Ok? ==>
      && r.value == TicketType(|old(db.ticketTypes)|, eventId, name, price, capacity, 0, true)
      && db.ticketTypes == old(db.ticketTypes) + [r.value]
      && Available(r.value) == capacity
  {
    if !(0 <= eventId < |db.eventos|) {
      return Err(EventNotFound);
    }
    if price < 0 {
      return Err(NegativePrice);
    }
    if capacity <= 0 {
      return Err(NonPositiveCapacity);
    }
    var t := TicketType(|db.ticketTypes|, eventId, name, price, capacity, 0, true);
    db.ticketTypes := db.ticketTypes + [t];
    r := Ok(t);
  }

  /** `deactivate_ticket_type`: only `active` changes; a missing id is an
      error. */
  method DeactivateTicketType(db: Database, ticketTypeId: int) returns (r: Result<TicketType, EventError>)
    requires db.Valid()
    modifies db`ticketTypes
    ensures db.Valid()
    ensures r.Err? <==> !(0 <= ticketTypeId < |old(db.ticketTypes)|)
    ensures r.Err? ==> r.error == TicketTypeNotFound && db.ticketTypes == old(db.ticketTypes)
    ensures r.Ok? ==>
      && r.value == old(db.ticketTypes)[ticketTypeId].(active := false)
      && db.ticketTypes == old(db.ticketTypes)[ticketTypeId := r.value]
  {
    if !(0 <= ticketTypeId < |db.ticketTypes|) {
      return Err(TicketTypeNotFound);
    }
    var t := db.ticketTypes[ticketTypeId].(active := false);
    db.ticketTypes := db.ticketTypes[ticketTypeId := t];
    r := Ok(t);
  }
}
