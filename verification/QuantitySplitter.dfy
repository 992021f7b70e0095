/** Splitting a position into orders an exchange accepts (`floor_to_step`, `split_quantity`). */
module QuantitySplitter {

  // ---------- Rounding down to a step ----------

  function FloorToStep(quantity: real, step: real): real {
    if step <= 0.0 then quantity else Truncate(quantity / step) as real * step
  }

  /** Rounding towards zero. */
  function Truncate(x: real): int {
    if x >= 0.0 then x.Floor else -(-x).Floor
  }

  /** Rounding towards zero treats both signs alike. */
  lemma FloorIsOdd(quantity: real, step: real)
    ensures FloorToStep(-quantity, step) == -FloorToStep(quantity, step)
  {
    if step > 0.0 {
      var q := quantity / step;
      assert -quantity / step == -q;
      TruncateIsOdd(q);
      assert Truncate(-q) as real * step == -(Truncate(q) as real * step);
    }
  }

  lemma TruncateIsOdd(x: real)
    ensures Truncate(-x) == -Truncate(x)
  {
  }

  function Steps(k: nat, unit: real): real {
    k as real * unit
  }

  ghost predicate IsMultiple(quantity: real, step: real) {
    exists k :: quantity == Steps(k, step)
  }

  lemma StepsGrow(j: nat, k: nat, unit: real)
    requires unit > 0.0
    ensures Steps(j, unit) < Steps(k, unit) <==> j < k
    ensures Steps(k + 1, unit) == Steps(k, unit) + unit
    ensures Steps(j + k, unit) == Steps(j, unit) + Steps(k, unit)
  {
    assert (k as real - j as real) * unit == Steps(k, unit) - Steps(j, unit);
  }

  lemma Quotient(k: nat, rest: real, unit: real)
    requires 0.0 <= rest < unit
    ensures ((Steps(k, unit) + rest) / unit).Floor == k
  {
    var q := (Steps(k, unit) + rest) / unit;
    var over := q - k as real;
    assert q == k as real + over;
    Distribute(k as real, over, unit);
    assert over * unit == rest;
    Scaled(over, unit);
  }

  lemma Scaled(a: real, b: real)
    requires b > 0.0 && 0.0 <= a * b < b
    ensures 0.0 <= a < 1.0
  {
    Product(-a, b);
    Product(a - 1.0, b);
    Distribute(a, -1.0, b);
    Distribute(a, -a, b);
  }

  lemma Between(x: real, q: real, k: nat, unit: real)
    requires unit > 0.0 && x == q * unit && k as real <= q < k as real + 1.0
    ensures Steps(k, unit) <= x < Steps(k, unit) + unit
  {
    var whole := k as real;
    var next := whole + 1.0;
    AtLeast(whole, q, unit);
    Above(q, next, unit);
    assert x < next * unit;
    Distribute(whole, 1.0, unit);
    assert next * unit == whole * unit + unit;
  }

  lemma AtLeast(a: real, b: real, unit: real)
    requires unit > 0.0 && a <= b
    ensures a * unit <= b * unit
  {
    Distribute(a, b - a, unit);
    Product(b - a, unit);
    assert a + (b - a) == b;
  }

  lemma Above(a: real, b: real, unit: real)
    requires unit > 0.0 && a < b
    ensures a * unit < b * unit
  {
    Distribute(a, b - a, unit);
    Product(b - a, unit);
    assert a + (b - a) == b;
  }

  lemma Distribute(a: real, b: real, c: real)
    ensures (a + b) * c == a * c + b * c
  {
  }

  lemma Product(a: real, b: real)
    requires b > 0.0
    ensures a >= 0.0 ==> a * b >= 0.0
    ensures a > 0.0 ==> a * b > 0.0
  {
  }

  /** A non-negative quantity is whole units and less than one more. */
  lemma Divide(x: real, unit: real) returns (k: nat)
    requires unit > 0.0 && x >= 0.0
    ensures k == (x / unit).Floor && Steps(k, unit) <= x < Steps(k, unit) + unit
  {
    var q := x / unit;
    assert q >= 0.0;
    k := q.Floor;
    Between(x, q, k, unit);
  }

  lemma FloorBounds(x: real, step: real) returns (k: nat)
    requires step > 0.0 && x >= 0.0
    ensures FloorToStep(x, step) == Steps(k, step) && Steps(k, step) <= x < Steps(k, step) + step
  {
    k := Divide(x, step);
    assert x / step >= 0.0;
  }

  /** Those bounds fix the result. */
  lemma FloorIsWhole(x: real, k: nat, step: real)
    requires step > 0.0 && Steps(k, step) <= x < Steps(k, step) + step
    ensures FloorToStep(x, step) == Steps(k, step)
  {
    Quotient(k, x - Steps(k, step), step);
    hide Steps;
    assert Steps(k, step) + (x - Steps(k, step)) == x;
  }

  /** Whole steps in front do not change what is rounded away. */
  lemma FloorShift(k: nat, x: real, step: real)
    requires step > 0.0 && x >= 0.0
    ensures FloorToStep(Steps(k, step) + x, step) == Steps(k, step) + FloorToStep(x, step)
  {
    hide Steps, FloorToStep;
    var j := FloorBounds(x, step);
    StepsGrow(k, j, step);
    FloorIsWhole(Steps(k, step) + x, k + j, step);
  }

  // ---------- The split that the loop is measured against ----------

  datatype Result = Chunks(chunks: seq<real>) | InvalidMaximum | NotDivisible

  /** The largest chunk allowed: a maximum that is not positive stands for no maximum. */
  function MaxChunk(total: real, max: real, step: real): real {
    FloorToStep(if max <= 0.0 then total else max, step)
  }

  function FullChunks(total: real, chunk: real): (n: nat)
    requires total > 0.0 && chunk > 0.0
  {
    assert total / chunk >= 0.0;
    (total / chunk).Floor
  }

  function Remainder(total: real, chunk: real): real
    requires total > 0.0 && chunk > 0.0
  {
    total - Steps(FullChunks(total, chunk), chunk)
  }

  function LastPart(total: real, chunk: real, step: real): real
    requires total > 0.0 && chunk > 0.0
  {
    FloorToStep(Remainder(total, chunk), step)
  }

  function Repeated(x: real, n: nat): seq<real> {
    if n == 0 then [] else Repeated(x, n - 1) + [x]
  }

  /** As many full chunks as fit, then what is left in whole steps. */
  function Plan(total: real, chunk: real, step: real): seq<real>
    requires total > 0.0 && chunk > 0.0
  {
    var last := LastPart(total, chunk, step);
    Repeated(chunk, FullChunks(total, chunk)) + if last > 0.0 then [last] else []
  }

  /** The total holds no whole step, or the last chunk is below the minimum. */
  predicate Fails(total: real, chunk: real, step: real, min: real)
    requires total > 0.0 && chunk > 0.0
  {
    var last := LastPart(total, chunk, step);
    FloorToStep(total, step) == 0.0 || (min > 0.0 && (if last > 0.0 then last else chunk) < min)
  }

  lemma RemainderBounds(total: real, chunk: real)
    requires total > 0.0 && chunk > 0.0
    ensures 0.0 <= Remainder(total, chunk) < chunk
  {
    var k := Divide(total, chunk);
  }

  lemma FloorFacts(x: real, step: real)
    requires x >= 0.0
    ensures 0.0 <= FloorToStep(x, step) <= x
    ensures step <= 0.0 ==> FloorToStep(x, step) == x
    ensures step > 0.0 ==> x < FloorToStep(x, step) + step
    ensures step > 0.0 ==> (FloorToStep(x, step) == 0.0 <==> x < step)
    ensures FloorToStep(FloorToStep(x, step), step) == FloorToStep(x, step)
  {
    if step > 0.0 {
      var k := FloorBounds(x, step);
      StepsGrow(0, k, step);
      if k > 0 {
        StepsGrow(1, k, step);
      }
      FloorShift(k, 0.0, step);
      Quotient(0, 0.0, step);
    }
  }

  function Abs(x: real): real {
    if x < 0.0 then -x else x
  }

  /** Between two turns with something left: `n` full chunks are taken. */
  ghost predicate Running(chunks: seq<real>, remaining: real, n: nat, total: real, chunk: real, step: real, min: real)
    requires total > 0.0 && chunk > 0.0
  {
    && chunks == Repeated(chunk, n)
    && remaining == total - Steps(n, chunk)
    && n <= FullChunks(total, chunk)
    && (n > 0 ==> chunk >= min || min <= 0.0)
    && (n > 0 && step > 0.0 ==> remaining >= step)
  }

  ghost predicate Done(chunks: seq<real>, total: real, chunk: real, step: real, min: real)
    requires total > 0.0 && chunk > 0.0
  {
    !Fails(total, chunk, step, min) && chunks == Plan(total, chunk, step)
  }

  /** Which full chunk the loop is at. */
  lemma Where(remaining: real, n: nat, total: real, chunk: real)
    requires total > 0.0 && chunk > 0.0 && remaining == total - Steps(n, chunk) && remaining >= 0.0
    ensures remaining >= chunk <==> n < FullChunks(total, chunk)
    ensures remaining < chunk ==> n == FullChunks(total, chunk) && remaining == Remainder(total, chunk)
  {
    var full := FullChunks(total, chunk);
    RemainderBounds(total, chunk);
    StepsGrow(n, full, chunk);
    StepsGrow(n + 1, full, chunk);
    StepsGrow(full + 1, n, chunk);
    StepsGrow(full, n, chunk);
  }

  lemma FullTurn(chunks: seq<real>, remaining: real, n: nat, total: real, chunk: real, step: real, min: real)
    requires total > 0.0 && chunk > 0.0 && (step > 0.0 ==> step <= chunk)
    requires Running(chunks, remaining, n, total, chunk, step, min) && remaining >= chunk
    ensures n < FullChunks(total, chunk)
    ensures min > 0.0 && chunk < min ==> Fails(total, chunk, step, min)
    ensures var left := remaining - chunk;
            chunk >= min || min <= 0.0 ==>
              if left == 0.0 || (step > 0.0 && left < step) then Done(chunks + [chunk], total, chunk, step, min)
              else Running(chunks + [chunk], left, n + 1, total, chunk, step, min)
  {
    Where(remaining, n, total, chunk);
    FloorFacts(total, step);
    RemainderBounds(total, chunk);
    FloorFacts(Remainder(total, chunk), step);
    StepsGrow(n, n, chunk);
    var left := remaining - chunk;
    if left < chunk {
      Where(left, n + 1, total, chunk);
    }
    StepsGrow(0, n, chunk);
  }

  lemma LastTurn(chunks: seq<real>, remaining: real, n: nat, total: real, chunk: real, step: real, min: real)
    requires total > 0.0 && chunk > 0.0 && 0.0 < remaining < chunk
    requires Running(chunks, remaining, n, total, chunk, step, min)
    ensures var last := FloorToStep(remaining, step);
            if last <= 0.0 || (min > 0.0 && last < min) then Fails(total, chunk, step, min)
            else Done(chunks + [last], total, chunk, step, min)
                 && (remaining - last == 0.0 || (step > 0.0 && remaining - last < step))
  {
    Where(remaining, n, total, chunk);
    FloorFacts(total, step);
    FloorFacts(remaining, step);
    StepsGrow(0, n, chunk);
  }

  method SplitQuantity(totalQuantity: real, max: real, min: real, step: real) returns (r: Result)
    ensures totalQuantity == 0.0 ==> r == Chunks([])
    ensures totalQuantity != 0.0 ==> (r.InvalidMaximum? <==> MaxChunk(Abs(totalQuantity), max, step) <= 0.0)
    ensures totalQuantity != 0.0 && MaxChunk(Abs(totalQuantity), max, step) > 0.0 ==>
              var total, chunk := Abs(totalQuantity), MaxChunk(Abs(totalQuantity), max, step);
              r == if Fails(total, chunk, step, min) then NotDivisible else Chunks(Plan(total, chunk, step))
  {
    var total := Abs(totalQuantity);
    if total <= 0.0 {
      return Chunks([]);
    }
    var limit := if max <= 0.0 then total else max;
    var maxChunk := FloorToStep(limit, step);
    if maxChunk <= 0.0 {
      return InvalidMaximum;
    }
    r := Fill(total, limit, maxChunk, min, step);
  }

  method Fill(total: real, ghost limit: real, maxChunk: real, min: real, step: real) returns (r: Result)
    requires total > 0.0 && limit > 0.0 && maxChunk == FloorToStep(limit, step) && maxChunk > 0.0
    ensures r == if Fails(total, maxChunk, step, min) then NotDivisible else Chunks(Plan(total, maxChunk, step))
  {
    FloorFacts(limit, step);
    FloorFacts(maxChunk, step);
    StepsGrow(0, 0, maxChunk);
    var remaining := total;
    var chunks: seq<real> := [];
    ghost var n := 0;
    assert Running(chunks, remaining, n, total, maxChunk, step, min);
    hide Running;
    hide FloorToStep;
    while remaining > 0.0
      invariant remaining >= 0.0
      invariant remaining > 0.0 ==> Running(chunks, remaining, n, total, maxChunk, step, min)
      invariant remaining == 0.0 ==> Done(chunks, total, maxChunk, step, min)
      decreases FullChunks(total, maxChunk) - n, remaining > 0.0
    {
      var raw := if remaining < maxChunk then remaining else maxChunk;
      var chunk := FloorToStep(raw, step);
      if raw == maxChunk {
        FullTurn(chunks, remaining, n, total, maxChunk, step, min);
      } else {
        LastTurn(chunks, remaining, n, total, maxChunk, step, min);
      }
      if chunk <= 0.0 {
        break;
      }
      if min > 0.0 && chunk < min {
        break;
      }
      chunks := chunks + [chunk];
      remaining := remaining - chunk;
      if step > 0.0 && remaining < step {
        remaining := 0.0;
      }
      if raw == maxChunk {
        n := n + 1;
      }
    }
    r := if remaining > 0.0 then NotDivisible else Chunks(chunks);
  }

  // ---------- What the split is worth ----------

  function Sum(chunks: seq<real>): real {
    if chunks == [] then 0.0 else Sum(chunks[..|chunks| - 1]) + chunks[|chunks| - 1]
  }

  lemma {:induction false} RepeatedFacts(x: real, n: nat)
    ensures |Repeated(x, n)| == n && Sum(Repeated(x, n)) == Steps(n, x)
    ensures forall i :: 0 <= i < n ==> Repeated(x, n)[i] == x
  {
    if n > 0 {
      RepeatedFacts(x, n - 1);
    }
  }

  lemma SumAppend(chunks: seq<real>, x: real)
    ensures Sum(chunks + [x]) == Sum(chunks) + x
  {
    assert (chunks + [x])[..|chunks|] == chunks;
  }

  lemma PlanSum(total: real, chunk: real, step: real)
    requires total > 0.0 && chunk > 0.0
    ensures Sum(Plan(total, chunk, step)) == Steps(FullChunks(total, chunk), chunk) + LastPart(total, chunk, step)
    ensures |Plan(total, chunk, step)| == FullChunks(total, chunk) + if LastPart(total, chunk, step) > 0.0 then 1 else 0
  {
    RepeatedFacts(chunk, FullChunks(total, chunk));
    var full := Repeated(chunk, FullChunks(total, chunk));
    SumAppend(full, LastPart(total, chunk, step));
    assert full + [] == full;
    RemainderBounds(total, chunk);
    FloorFacts(Remainder(total, chunk), step);
  }

  lemma StepsOfSteps(n: nat, k: nat, step: real)
    ensures Steps(n, Steps(k, step)) == Steps(n * k, step)
  {
  }

  /** Conservation: the chunks add up to the total without the part below one step, or to the total
      itself when there is no step. */
  lemma PlanConserves(total: real, max: real, step: real)
    requires total > 0.0 && MaxChunk(total, max, step) > 0.0
    ensures Sum(Plan(total, MaxChunk(total, max, step), step)) == FloorToStep(total, step)
  {
    hide Steps;
    hide FloorToStep;
    var chunk := MaxChunk(total, max, step);
    PlanSum(total, chunk, step);
    RemainderBounds(total, chunk);
    if step > 0.0 {
      var k := FloorBounds(if max <= 0.0 then total else max, step);
      StepsOfSteps(FullChunks(total, chunk), k, step);
      FloorShift(FullChunks(total, chunk) * k, Remainder(total, chunk), step);
    } else {
      FloorFacts(total, step);
      FloorFacts(Remainder(total, chunk), step);
    }
  }

  /** Every chunk is a positive number of steps within the limits, and all but the last are the largest
      one allowed. */
  lemma PlanObeysLimits(total: real, max: real, min: real, step: real, i: nat)
    requires total > 0.0 && MaxChunk(total, max, step) > 0.0
    requires !Fails(total, MaxChunk(total, max, step), step, min) && i < |Plan(total, MaxChunk(total, max, step), step)|
    ensures var chunks := Plan(total, MaxChunk(total, max, step), step);
            && 0.0 < chunks[i] <= MaxChunk(total, max, step)
            && (max > 0.0 ==> chunks[i] <= max)
            && (min > 0.0 ==> min <= chunks[i])
            && (step > 0.0 ==> IsMultiple(chunks[i], step))
            && (i < |chunks| - 1 ==> chunks[i] == MaxChunk(total, max, step))
  {
    var chunk := MaxChunk(total, max, step);
    var limit := if max <= 0.0 then total else max;
    RepeatedFacts(chunk, FullChunks(total, chunk));
    RemainderBounds(total, chunk);
    FloorFacts(limit, step);
    FloorFacts(Remainder(total, chunk), step);
    if step > 0.0 {
      var k := FloorBounds(limit, step);
      var j := FloorBounds(Remainder(total, chunk), step);
      assert IsMultiple(chunk, step) && IsMultiple(LastPart(total, chunk, step), step);
    }
  }

  lemma {:induction false} SumBounded(chunks: seq<real>, limit: real)
    requires forall i :: 0 <= i < |chunks| ==> chunks[i] <= limit
    ensures Sum(chunks) <= Steps(|chunks|, limit)
  {
    if chunks != [] {
      SumBounded(chunks[..|chunks| - 1], limit);
    }
  }

  /** What the exchange asks of a chunk besides the minimum. */
  ghost predicate WithinLimits(chunk: real, limit: real, step: real) {
    chunk <= limit && (step > 0.0 ==> IsMultiple(chunk, step))
  }

  lemma MultipleWithin(chunk: real, limit: real, step: real)
    requires limit > 0.0 && WithinLimits(chunk, limit, step)
    ensures chunk <= FloorToStep(limit, step)
  {
    if step > 0.0 {
      var j :| chunk == Steps(j, step);
      var k := FloorBounds(limit, step);
      StepsGrow(k + 1, j, step);
      StepsGrow(k, j, step);
      StepsGrow(k, k, step);
    }
  }

  /** No list of chunks within the limits reaches the same sum with fewer orders. */
  lemma PlanIsShortest(total: real, max: real, step: real, other: seq<real>)
    requires total > 0.0 && MaxChunk(total, max, step) > 0.0
    requires forall i :: 0 <= i < |other| ==> WithinLimits(other[i], if max <= 0.0 then total else max, step)
    requires Sum(other) == Sum(Plan(total, MaxChunk(total, max, step), step))
    ensures |other| >= |Plan(total, MaxChunk(total, max, step), step)|
  {
    var limit, chunk := if max <= 0.0 then total else max, MaxChunk(total, max, step);
    forall i | 0 <= i < |other| ensures other[i] <= chunk {
      MultipleWithin(other[i], limit, step);
    }
    hide FloorToStep, Steps;
    SumBounded(other, chunk);
    PlanSum(total, chunk, step);
    StepsGrow(FullChunks(total, chunk), |other|, chunk);
    StepsGrow(|other|, FullChunks(total, chunk), chunk);
    RemainderBounds(total, chunk);
    FloorFacts(Remainder(total, chunk), step);
  }
}
