/** The maintenance pass of cleanup_prices.py: every price outside
    0 … 999999.99 is replaced by a default, and an in-range price with
    more than two decimals is quantized to cents (half-even). The column
    being cleaned is an array of decimals updated in place. */
module PriceCleanup {
  import opened Decimals

  const MaxPrice: Dec := Dec(99999999, -2)
  /** The replacement for an out-of-range `Evento.precio`, 50.00. */
  const EventoDefault: Dec := Dec(5000, -2)
  /** The replacement for an out-of-range `TicketType.price`, 25.00. */
  const TicketDefault: Dec := Dec(2500, -2)

  /** `0 <= p <= 999999.99`. */
  predicate InRange(p: Dec)
  {
    !IsNegative(p) && !Less(MaxPrice, p)
  }

  /** At most two decimals: `as_tuple().exponent >= -2`. */
  predicate AtMostCents(p: Dec)
  {
    p.exp >= -2
  }

  /** Whether the pass rewrites (and saves) this price. */
  predicate NeedsCleanup(p: Dec)
  {
    !InRange(p) || !AtMostCents(p)
  }

  /** One iteration's decision. */
  function CleanPrice(p: Dec, fallback: Dec): Dec
  {
    if !InRange(p) then fallback
    else if p.exp < -2 then Quantize2(p)
    else p
  }

  lemma MulMonotone(a: int, b: int, k: int)
    requires a <= b && k >= 0
    ensures a * k <= b * k
  {
    assert (b - a) * k >= 0;
    assert (b - a) * k == b * k - a * k;
  }

  /** A quotient rounded to the nearest integer stays within the bounds
      its dividend is within. */
  lemma RoundedWithin(c: int, q: int, k: int)
    requires k >= 1 && 0 <= c <= 99999999 * k
    requires -k <= 2 * (c - q * k) <= k
    ensures 0 <= q <= 99999999
  {
    var m := q * k;
    assert 2 * m <= 2 * c + k;
    assert 2 * c + k <= 199999999 * k;
    if q > 99999999 {
      MulMonotone(100000000, q, k);
      assert false;
    }
    assert 2 * m >= 2 * c - k >= -k;
    if q < 0 {
      MulMonotone(q, -1, k);
      assert false;
    }
  }

  /** Quantizing an in-range price cannot leave the range: anything above
      999999.99 has already been replaced by the range check. */
  lemma QuantizeStaysInRange(p: Dec)
    requires InRange(p) && p.exp < -2
    ensures InRange(Quantize2(p)) && AtMostCents(Quantize2(p))
  {
    var r := Quantize2(p);
    var k: int := Pow10(-2 - p.exp);
    assert Min(MaxPrice.exp, p.exp) == p.exp;
    assert CoefAt(MaxPrice, p.exp) == 99999999 * k;
    assert CoefAt(r, p.exp) == r.coef * k;
    RoundedWithin(p.coef, r.coef, k);
    assert CoefAt(MaxPrice, -2) == 99999999 && CoefAt(r, -2) == r.coef;
  }

  lemma DefaultsInRange()
    ensures InRange(EventoDefault) && AtMostCents(EventoDefault)
    ensures InRange(TicketDefault) && AtMostCents(TicketDefault)
  {
    assert CoefAt(MaxPrice, -2) == 99999999;
    assert CoefAt(EventoDefault, -2) == 5000;
    assert CoefAt(TicketDefault, -2) == 2500;
  }

  /** What one iteration does: an out-of-range price becomes the default,
      an in-range one with more decimals becomes its quantization, any
      other price is kept; the result is always an in-range price with at
      most two decimals, the price is rewritten exactly when it changes,
      and a second pass changes nothing. */
  lemma CleanPriceSpec(p: Dec, fallback: Dec)
    requires fallback == EventoDefault || fallback == TicketDefault
    ensures !InRange(p) ==> CleanPrice(p, fallback) == fallback
    ensures InRange(p) && !AtMostCents(p) ==> CleanPrice(p, fallback) == Quantize2(p)
    ensures !NeedsCleanup(p) ==> CleanPrice(p, fallback) == p
    ensures InRange(CleanPrice(p, fallback)) && AtMostCents(CleanPrice(p, fallback))
    ensures NeedsCleanup(p) <==> CleanPrice(p, fallback) != p
    ensures CleanPrice(CleanPrice(p, fallback), fallback) == CleanPrice(p, fallback)
  {
    DefaultsInRange();
    if InRange(p) && p.exp < -2 {
      QuantizeStaysInRange(p);
    }
  }

  /** 999999.995 is above the bound, so it is reset to the default rather
      than rounded up to 1000000.00. */
  lemma BoundaryPriceIsReset()
    ensures !InRange(Dec(999999995, -3))
    ensures CleanPrice(Dec(999999995, -3), EventoDefault) == EventoDefault
  {
    assert CoefAt(MaxPrice, -3) == 999999990;
  }

  /** The price column after the pass, element by element. */
  function CleanAll(ps: seq<Dec>, fallback: Dec): (r: seq<Dec>)
    ensures |r| == |ps|
    ensures forall i :: 0 <= i < |ps| ==> r[i] == CleanPrice(ps[i], fallback)
  {
    if ps == [] then [] else CleanAll(ps[..|ps| - 1], fallback) + [CleanPrice(ps[|ps| - 1], fallback)]
  }

  /** How many prices the pass rewrites. */
  function CountNeedingCleanup(ps: seq<Dec>): (n: nat)
    ensures n <= |ps|
  {
    if ps == [] then 0
    else CountNeedingCleanup(ps[..|ps| - 1]) + (if NeedsCleanup(ps[|ps| - 1]) then 1 else 0)
  }

  /** How many positions differ between two columns of the same length. */
  function Changed(a: seq<Dec>, b: seq<Dec>): nat
    requires |a| == |b|
  {
    if a == [] then 0
    else Changed(a[..|a| - 1], b[..|b| - 1]) + (if a[|a| - 1] != b[|b| - 1] then 1 else 0)
  }

  /** The number of rewritten prices is the number of prices that change. */
  lemma {:induction false} CountIsChanged(ps: seq<Dec>, fallback: Dec)
    requires fallback == EventoDefault || fallback == TicketDefault
    ensures CountNeedingCleanup(ps) == Changed(ps, CleanAll(ps, fallback))
  {
    if ps != [] {
      var n := |ps| - 1;
      assert CleanAll(ps, fallback)[..n] == CleanAll(ps[..n], fallback);
      CountIsChanged(ps[..n], fallback);
      CleanPriceSpec(ps[n], fallback);
    }
  }

  /** A second pass finds nothing to do. */
  lemma {:induction false} CleanAllIdempotent(ps: seq<Dec>, fallback: Dec)
    requires fallback == EventoDefault || fallback == TicketDefault
    ensures CleanAll(CleanAll(ps, fallback), fallback) == CleanAll(ps, fallback)
    ensures CountNeedingCleanup(CleanAll(ps, fallback)) == 0
  {
    var c := CleanAll(ps, fallback);
    forall i | 0 <= i < |ps|
      ensures CleanPrice(c[i], fallback) == c[i] && !NeedsCleanup(c[i])
    {
      CleanPriceSpec(ps[i], fallback);
      CleanPriceSpec(c[i], fallback);
    }
    NoneNeedCleanup(c);
  }

  lemma {:induction false} NoneNeedCleanup(ps: seq<Dec>)
    requires forall i :: 0 <= i < |ps| ==> !NeedsCleanup(ps[i])
    ensures CountNeedingCleanup(ps) == 0
  {
    if ps != [] {
      NoneNeedCleanup(ps[..|ps| - 1]);
    }
  }

  /** The loop shared by both functions: rewrite each price that needs it
      and count the rewrites. */
  method CleanupPrices(prices: array<Dec>, fallback: Dec) returns (updated: nat)
    modifies prices
    ensures prices[..] == CleanAll(old(prices[..]), fallback)
    ensures updated == CountNeedingCleanup(old(prices[..]))
  {
    ghost var before := prices[..];
    updated := 0;
    var i := 0;
    while i < prices.Length
      invariant 0 <= i <= prices.Length
      invariant forall j :: 0 <= j < i ==> prices[j] == CleanPrice(before[j], fallback)
      invariant forall j :: i <= j < prices.Length ==> prices[j] == before[j]
      invariant updated == CountNeedingCleanup(before[..i])
    {
      var p := prices[i];
      assert before[..i + 1][..i] == before[..i];
      if !InRange(p) {
        prices[i] := fallback;
        updated := updated + 1;
      } else if p.exp < -2 {
        prices[i] := Quantize2(p);
        updated := updated + 1;
      }
      i := i + 1;
    }
    assert before[..prices.Length] == before;
  }

  /** `cleanup_evento_prices`: out-of-range prices become 50.00. */
  method CleanupEventoPrices(precios: array<Dec>) returns (updated: nat)
    modifies precios
    ensures precios[..] == CleanAll(old(precios[..]), EventoDefault)
    ensures updated == Changed(old(precios[..]), precios[..])
    ensures forall i :: 0 <= i < precios.Length ==> InRange(precios[i]) && AtMostCents(precios[i])
  {
    ghost var before := precios[..];
    updated := CleanupPrices(precios, EventoDefault);
    CountIsChanged(before, EventoDefault);
    forall i | 0 <= i < precios.Length
      ensures InRange(precios[i]) && AtMostCents(precios[i])
    {
      CleanPriceSpec(before[i], EventoDefault);
    }
  }

  /** `cleanup_ticket_prices`: out-of-range prices become 25.00. */
  method CleanupTicketPrices(prices: array<Dec>) returns (updated: nat)
    modifies prices
    ensures prices[..] == CleanAll(old(prices[..]), TicketDefault)
    ensures updated == Changed(old(prices[..]), prices[..])
    ensures forall i :: 0 <= i < prices.Length ==> InRange(prices[i]) && AtMostCents(prices[i])
  {
    ghost var before := prices[..];
    updated := CleanupPrices(prices, TicketDefault);
    CountIsChanged(before, TicketDefault);
    forall i | 0 <= i < prices.Length
      ensures InRange(prices[i]) && AtMostCents(prices[i])
    {
      CleanPriceSpec(before[i], TicketDefault);
    }
  }
}
