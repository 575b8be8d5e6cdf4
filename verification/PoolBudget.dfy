// Connection-pool sizing of the load benchmark: every pool open at one time must
// fit the database's connection budget together.
module PoolBudget {

  const BUDGET := 90
  const ADMIN_RESERVE := 5 + 10

  datatype Pool = Pool(size: int, overflow: int)

  function Min(a: int, b: int): int {
    if a <= b then a else b
  }

  function Max(a: int, b: int): int {
    if a >= b then a else b
  }

  function Generous(peak: int): Pool {
    Pool(Min(30, Max(10, peak + 8)), 5)
  }

  /** Python's floor division, for a positive divisor. */
  function FloorDiv(a: int, b: int): int
    requires b > 0
  {
    a / b
  }

  /** `_pool_sizing_for_workers`. */
  function PoolSizing(peak: int, workers: int, reserved: int): Pool
    requires workers >= 1
  {
    var budget := BUDGET - reserved;
    var g := Generous(peak);
    if workers * (g.size + g.overflow) <= budget then g
    else
      var each := Max(2, FloorDiv(budget, workers));
      Pool(Max(1, each - 1), each - Max(1, each - 1))
  }

  function Total(p: Pool): int {
    p.size + p.overflow
  }

  // Whatever the inputs, a pool has at least one connection of each kind; and
  // all workers together stay within what is left of the budget exactly when
  // two connections per worker would, or the generous size fits.
  lemma SizingWithinBudget(peak: int, workers: int, reserved: int)
    requires workers >= 1
    ensures var p, budget := PoolSizing(peak, workers, reserved), BUDGET - reserved;
            && p.size >= 1 && p.overflow >= 1
            && (workers * Total(p) <= budget <==> 2 * workers <= budget)
  {
    var budget := BUDGET - reserved;
    var g := Generous(peak);
    var generous := workers * (g.size + g.overflow);
    if generous <= budget {
      MultiplyMonotone(workers, 2, g.size + g.overflow);
    } else {
      ShareWithin(budget, workers);
    }
  }

  // The generous size where it fits all workers; else the largest equal share
  // that does, one connection of it as overflow; and two connections where not
  // even that fits.
  lemma SizingExact(peak: int, workers: int, reserved: int)
    requires workers >= 1
    ensures var p, budget := PoolSizing(peak, workers, reserved), 90 - reserved;
            var size := if peak <= 2 then 10 else if peak >= 22 then 30 else peak + 8;
            && (workers * (size + 5) <= budget ==> p == Pool(size, 5))
            && (workers * (size + 5) > budget && 2 * workers <= budget ==>
                  p.overflow == 1 && workers * (p.size + 1) <= budget < workers * (p.size + 2))
            && (workers * (size + 5) > budget && 2 * workers > budget ==> p == Pool(1, 1))
  {
    var budget := BUDGET - reserved;
    var q := FloorDiv(budget, workers);
    FloorDivBounds(budget, workers);
    if 2 * workers <= budget {
      if q <= 1 {
        MultiplyMonotone(workers, q + 1, 2);
      }
    } else if q >= 2 {
      MultiplyMonotone(workers, 2, q);
    }
  }

  // An equal share of the budget, but never less than two connections.
  lemma ShareWithin(budget: int, workers: int)
    requires workers >= 1
    ensures workers * Max(2, FloorDiv(budget, workers)) <= budget <==> 2 * workers <= budget
  {
    var q := FloorDiv(budget, workers);
    FloorDivBounds(budget, workers);
    if 2 <= q {
      MultiplyMonotone(workers, 2, q);
    } else {
      MultiplyMonotone(workers, q + 1, 2);
    }
  }

  lemma FloorDivBounds(a: int, b: int)
    requires b > 0
    ensures b * FloorDiv(a, b) <= a < b * (FloorDiv(a, b) + 1)
  {
  }

  lemma MultiplyMonotone(k: int, a: int, b: int)
    requires k >= 0 && a <= b
    ensures k * a <= k * b
  {
  }

  // The whole benchmark: for every peak concurrency and every allowed worker
  // count, baseline pool, admin reserve and worker pools together fit the budget.
  lemma BenchmarkWithinBudget(peak: int, workers: int)
    requires peak >= 1 && 1 <= workers <= 16
    ensures var baseline := PoolSizing(peak, 1, 0);
            var reserved := Total(baseline) + ADMIN_RESERVE;
            var p := PoolSizing(peak, workers, reserved);
            reserved + workers * Total(p) <= BUDGET && p.size >= 1 && p.overflow >= 1
  {
    var baseline := PoolSizing(peak, 1, 0);
    assert baseline == Generous(peak) && Total(baseline) <= 35;
    SizingWithinBudget(peak, workers, Total(baseline) + ADMIN_RESERVE);
  }

  // The worker guard is what makes it fit: the largest count that can be served
  // next to a full-size baseline is 20.
  lemma TooManyWorkers(peak: int, workers: int)
    requires peak >= 22 && workers >= 1
    ensures var reserved := Total(PoolSizing(peak, 1, 0)) + ADMIN_RESERVE;
            reserved + workers * Total(PoolSizing(peak, workers, reserved)) <= BUDGET <==> workers <= 20
  {
    var reserved := Total(PoolSizing(peak, 1, 0)) + ADMIN_RESERVE;
    assert reserved == 50;
    SizingWithinBudget(peak, workers, reserved);
  }
}
