/** The pydantic price validators of the event schemas
    (events/schemas/evento_schema.py) and `TicketTypeSchema.available`.
    A validator receives an arbitrary Python value: `None`, a value whose
    `str()` raises `ValueError` or `TypeError`, or a value whose `str()` text `Decimal` either parses
    (to a finite decimal, an infinity or a NaN) or refuses. */
module PriceSchemas {
  import opened Outcomes
  import opened Decimals
  import opened Catalog

  /** What `Decimal(text)` can produce. */
  datatype DecimalValue = Finite(d: Dec) | Infinite(negative: bool) | NaN

  /** The validator's input, as far as the validator can observe it:
      `Unprintable` is a value whose `str()` raises `ValueError` or
      `TypeError`, the two exceptions the validators catch; `parsed` is
      `None` when `Decimal(str(v))` reports a syntax error. */
  datatype PriceInput = NoneValue | Unprintable | Printed(parsed: Option<DecimalValue>)

  /** The exception that escapes a validator: `decimal.InvalidOperation` is
      an `ArithmeticError`, neither a `ValueError` nor a `TypeError`. */
  datatype Raised = InvalidOperation

  const Zero: DecimalValue := Finite(Dec(0, -2))

  /** The decimal's own text, which parses back to it. */
  function Text(v: DecimalValue): PriceInput { Printed(Some(v)) }

  predicate NonNegative(v: DecimalValue)
  {
    match v
    case Finite(d) => !IsNegative(d)
    case Infinite(neg) => !neg
    case NaN => false
  }

  /** `Decimal(str(v))` followed by `decimal_value < 0`, the part the three
      validators share: an unparsable text, and a NaN in the ordering
      comparison, signal InvalidOperation. */
  function Clamp(parsed: Option<DecimalValue>): Result<DecimalValue, Raised>
  {
    match parsed
    case None => Err(InvalidOperation)
    case Some(NaN) => Err(InvalidOperation)
    case Some(Infinite(neg)) => if neg then Ok(Zero) else Ok(Infinite(false))
    case Some(Finite(d)) => if IsNegative(d) then Ok(Zero) else Ok(Finite(d))
  }

  /** `TicketTypeSchema.validate_price` as written; `validate_precio` of
      `EventoSchema` and `EventoListaSchema` is the same code. */
  function ValidatePrice(v: PriceInput): Result<DecimalValue, Raised>
  {
    match v
    case NoneValue => Ok(Zero)
    case Unprintable => Ok(Zero)
    case Printed(parsed) => Clamp(parsed)
  }

  /** `EventoDetailSchema.validate_precios` as written: `None` and a value
      whose `str()` raises `ValueError` or `TypeError` give `None`. */
  function ValidatePrecios(v: PriceInput): Result<Option<DecimalValue>, Raised>
  {
    match v
    case NoneValue => Ok(None)
    case Unprintable => Ok(None)
    case Printed(parsed) =>
      match Clamp(parsed)
      case Ok(x) => Ok(Some(x))
      case Err(e) => Err(e)
  }

  /** `validate_price` maps `None` and negatives to 0.00, keeps every
      non-negative number, never returns a negative, and raises exactly on
      an unparsable text or a NaN. */
  lemma ValidatePriceSpec(v: PriceInput)
    ensures ValidatePrice(v).Err? <==> v == Printed(None) || v == Printed(Some(NaN))
    ensures ValidatePrice(v).Ok? ==> NonNegative(ValidatePrice(v).value)
    ensures v == NoneValue ==> ValidatePrice(v) == Ok(Zero)
    ensures forall d: Dec :: v == Text(Finite(d)) ==>
      ValidatePrice(v) == (if IsNegative(d) then Ok(Zero) else Ok(Finite(d)))
  {
  }

  /** The normaliser is idempotent: validating the text of its own result
      gives that result back. */
  lemma ValidatePriceIdempotent(v: PriceInput)
    requires ValidatePrice(v).Ok?
    ensures ValidatePrice(Text(ValidatePrice(v).value)) == ValidatePrice(v)
  {
  }

  /** `validate_precios` agrees with `validate_price` on every printable
      input and differs only in giving `None` where the other gives 0.00. */
  lemma ValidatePreciosAgrees(v: PriceInput)
    ensures v.Printed? ==>
      match ValidatePrice(v)
      case Ok(x) => ValidatePrecios(v) == Ok(Some(x))
      case Err(e) => ValidatePrecios(v) == Err(e)
    ensures !v.Printed? ==> ValidatePrecios(v) == Ok(None) && ValidatePrice(v) == Ok(Zero)
    ensures ValidatePrecios(v).Ok? && ValidatePrecios(v).value.Some? ==>
      NonNegative(ValidatePrecios(v).value.value) &&
      ValidatePrecios(Text(ValidatePrecios(v).value.value)) == ValidatePrecios(v)
  {
  }

  /** The input the `except (ValueError, TypeError)` clause was written
      for escapes it: a non-numeric text raises instead of becoming 0.00,
      and so does the text "NaN". */
  lemma UnparsablePriceRaises()
    ensures ValidatePrice(Printed(None)) == Err(InvalidOperation)
    ensures ValidatePrice(Printed(Some(NaN))) == Err(InvalidOperation)
    ensures ValidatePrecios(Printed(None)) == Err(InvalidOperation)
  {
  }

  /** The validators as their fallback branch intends: anything that is
      not a number becomes the fallback (0.00 or `None`). */
  function ValidatePriceIntended(v: PriceInput): (r: DecimalValue)
    ensures NonNegative(r)
  {
    match ValidatePrice(v)
    case Ok(x) => x
    case Err(_) => Zero
  }

  function ValidatePreciosIntended(v: PriceInput): (r: Option<DecimalValue>)
    ensures r.Some? ==> NonNegative(r.value)
  {
    match ValidatePrecios(v)
    case Ok(x) => x
    case Err(_) => None
  }

  /** The intended validators never raise, agree with the written ones
      wherever those return, turn unparsable text and NaN into the
      fallback, and are idempotent. */
  lemma ValidatorsIntendedSpec(v: PriceInput)
    ensures ValidatePrice(v).Ok? ==> ValidatePriceIntended(v) == ValidatePrice(v).value
    ensures ValidatePrecios(v).Ok? ==> ValidatePreciosIntended(v) == ValidatePrecios(v).value
    ensures v == Printed(None) || v == Printed(Some(NaN)) ==>
      ValidatePriceIntended(v) == Zero && ValidatePreciosIntended(v) == None
    ensures ValidatePriceIntended(Text(ValidatePriceIntended(v))) == ValidatePriceIntended(v)
    ensures ValidatePreciosIntended(v).Some? ==>
      ValidatePreciosIntended(Text(ValidatePreciosIntended(v).value)) == ValidatePreciosIntended(v)
  {
    ValidatePriceSpec(v);
    ValidatePreciosAgrees(v);
  }

  /** `TicketTypeSchema.available`. */
  function SchemaAvailable(capacity: int, sold: int): (r: int)
    ensures r >= 0 && r >= capacity - sold
    ensures r == 0 || r == capacity - sold
  {
    if capacity - sold > 0 then capacity - sold else 0
  }

  /** The schema's figure is the model's `TicketType.available`. */
  lemma SchemaAvailableAgrees(t: TicketType)
    ensures SchemaAvailable(t.capacity, t.sold) == Available(t)
  {
  }
}
