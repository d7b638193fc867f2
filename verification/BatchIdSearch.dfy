/** The migration tool's search for a batch ID that the Ethereum contract has not executed: a growing upper bound,
    then a bisection, with every answer of the contract remembered. */
module BatchIdSearch {
  import opened Common

  const STRIDE := 100000

  /** The contract during the search: the IDs it has executed and those the query about which fails. */
  datatype Oracle = Oracle(executed: set<nat>, failing: set<nat>) {
    /** WasBatchExecuted; None is a failed query. */
    function Ask(id: nat): Option<bool> {
      if id in failing then None else Some(id in executed)
    }
  }

  /** One pass of the loop: it returns an ID, fails on a query, or goes on with new bounds. */
  datatype Round = Return(id: nat) | Fail(asked: nat) | Continue(high: nat, low: nat)

  function Middle(high: nat, low: nat): nat {
    (high + low) / 2
  }

  function RoundFrom(q: Oracle, high: nat, low: nat): Round {
    if q.Ask(high).None? then Fail(high)
    else if q.Ask(low).None? then Fail(low)
    else if !q.Ask(low).value then Return(low)
    else if q.Ask(high).value then Continue(high + STRIDE, low)
    else
      var mid := Middle(high, low);
      if mid == low then Return(high)
      else if q.Ask(mid).None? then Fail(mid)
      else if q.Ask(mid).value then Continue(high, mid)
      else Continue(mid, low)
  }

  /** Where the loop stands after `n` passes. */
  function After(q: Oracle, n: nat): Round {
    if n == 0 then Continue(STRIDE, 1)
    else
      var before := After(q, n - 1);
      if before.Continue? then RoundFrom(q, before.high, before.low) else before
  }

  /** The search stops by the time the upper bound is `k` strides: ID 1 or that bound is not known to be executed. */
  ghost predicate Halts(q: Oracle, k: nat) {
    1 <= k && (q.Ask(1) != Some(true) || q.Ask(STRIDE * k) != Some(true))
  }

  /** With finitely many executed IDs there is such a bound. */
  lemma EverySearchHalts(q: Oracle) returns (k: nat)
    ensures Halts(q, k)
  {
    var top := LargestExecuted(q.executed);
    k := top + 1;
  }

  lemma LargestExecuted(ids: set<nat>) returns (top: nat)
    ensures forall id :: id in ids ==> id <= top
    decreases ids
  {
    if ids == {} {
      return 0;
    }
    var id :| id in ids;
    var rest := LargestExecuted(ids - {id});
    top := if id > rest then id else rest;
    forall other | other in ids ensures other <= top {
      if other != id {
        assert other in ids - {id};
      }
    }
  }

  /** While ID 1 and every bound so far are executed the loop only raises the bound: without `Halts` it does not end. */
  lemma {:induction false} BoundOnlyGrows(q: Oracle, n: nat)
    requires q.Ask(1) == Some(true) && forall k: nat :: 1 <= k <= n ==> q.Ask(STRIDE * k) == Some(true)
    ensures After(q, n) == Continue(STRIDE * (n + 1), 1)
  {
    if n > 0 {
      BoundOnlyGrows(q, n - 1);
      assert q.Ask(STRIDE * n) == Some(true);
    }
  }

  // ----------------------------------------------------------- the result

  /** A free ID that is the first one or directly follows an executed one. */
  predicate Usable(q: Oracle, id: nat) {
    1 <= id && q.Ask(id) == Some(false) && (id == 1 || q.Ask(id - 1) == Some(true))
  }

  ghost predicate ExecutedUpTo(q: Oracle, last: nat) {
    forall id: nat :: 1 <= id ==> q.Ask(id) == Some(id <= last)
  }

  /** When the executed IDs are those from 1 to `last`, the usable ID is the least free one, and conversely. */
  lemma LeastFreeIsTheUsableId(q: Oracle, last: nat, id: nat)
    requires ExecutedUpTo(q, last)
    ensures Usable(q, id) <==> id == last + 1
    ensures Usable(q, id) ==> forall other: nat :: 1 <= other < id ==> q.Ask(other) == Some(true)
  {
    if Usable(q, id) && id > 1 {
      assert q.Ask(id - 1) == Some(id - 1 <= last);
    }
    if id == last + 1 && id > 1 {
      assert q.Ask(id - 1) == Some(true);
    }
  }

  /** Such a search stops at the first upper bound above `last`. */
  lemma PrefixHalts(q: Oracle, last: nat)
    requires ExecutedUpTo(q, last)
    ensures Halts(q, last / STRIDE + 1)
  {
    assert q.Ask(STRIDE * (last / STRIDE + 1)) == Some(false);
  }

  /** A gap among the executed IDs can be passed over: with only 1 and 50000 executed, whatever comes back is above
      50000, although 2 is free. */
  lemma {:induction false} GapIsPassedOver(n: nat)
    ensures var round := After(Oracle({1, 50000}, {}), n);
            match round
            case Return(id) => 50000 < id
            case Fail(_) => false
            case Continue(high, low) => low < high <= 100000 && (n >= 1 ==> low >= 50000)
  {
    if n > 0 {
      GapIsPassedOver(n - 1);
    }
  }

  /** The IDs at or above `target` that the bisection between `low` and `high` asks about on its way there. */
  function Probes(target: nat, high: nat, low: nat): set<nat>
    decreases high - low
  {
    var mid := Middle(high, low);
    if mid <= low || mid >= high then {}
    else if mid >= target then {mid} + Probes(target, mid, low)
    else Probes(target, high, mid)
  }

  /** Where the bisection ends. */
  function Bisect(q: Oracle, high: nat, low: nat): (id: nat)
    requires low < high
    ensures low < id <= high
    decreases high - low
  {
    var mid := Middle(high, low);
    if mid == low then high else if mid in q.executed then Bisect(q, high, mid) else Bisect(q, mid, low)
  }

  /** `target` is the least free ID, and it is not 1. */
  ghost predicate LeastFree(q: Oracle, target: nat) {
    1 < target && target !in q.executed && forall id :: 1 <= id < target ==> id in q.executed
  }

  lemma {:induction false} BisectFindsTargetIff(q: Oracle, target: nat, high: nat, low: nat)
    requires LeastFree(q, target) && 1 <= low < target <= high
    ensures Bisect(q, high, low) == target <==> Probes(target, high, low) !! q.executed
    decreases high - low
  {
    var mid := Middle(high, low);
    if mid != low {
      if mid < target {
        BisectFindsTargetIff(q, target, high, mid);
      } else if mid !in q.executed {
        BisectFindsTargetIff(q, target, mid, low);
      }
    }
  }

  lemma {:induction false} LoopBisects(q: Oracle, high: nat, low: nat, n: nat) returns (m: nat)
    requires q.failing == {} && low < high && high !in q.executed && low in q.executed
    requires After(q, n) == Continue(high, low)
    ensures n < m && After(q, m) == Return(Bisect(q, high, low))
    decreases high - low
  {
    m := n + 1;
    assert After(q, m) == RoundFrom(q, high, low);
    var mid := Middle(high, low);
    if mid != low {
      if mid in q.executed {
        m := LoopBisects(q, high, mid, m);
      } else {
        m := LoopBisects(q, mid, low, m);
      }
    }
  }

  lemma {:induction false} ReturnIsFinal(q: Oracle, m: nat, n: nat)
    requires m <= n && After(q, m).Return?
    ensures After(q, n) == After(q, m)
  {
    if m < n {
      ReturnIsFinal(q, m, n - 1);
    }
  }

  /** When exactly the least free ID comes back: none of the IDs above it that lie on the bisection's way from the first
      free upper bound down to it may be executed. */
  lemma LeastFreeComesBackIff(q: Oracle, target: nat, k: nat, n: nat)
    requires q.failing == {} && LeastFree(q, target) && After(q, n).Return?
    requires 1 <= k && STRIDE * k !in q.executed && forall j: nat :: 1 <= j < k ==> STRIDE * j in q.executed
    ensures After(q, n) == Return(target) <==> Probes(target, STRIDE * k, 1) !! q.executed
  {
    BoundOnlyGrows(q, k - 1);
    var m := LoopBisects(q, STRIDE * k, 1, k - 1);
    if m <= n {
      ReturnIsFinal(q, m, n);
    } else {
      ReturnIsFinal(q, n, m);
    }
    BisectFindsTargetIff(q, target, STRIDE * k, 1);
  }

  // ------------------------------------------------------ number of queries

  /** How often an interval of length `n` can be halved, rounding up, before it has length one. */
  function Halvings(n: nat): nat {
    if n <= 1 then 0 else 1 + Halvings((n + 1) / 2)
  }

  function Pow2(j: nat): nat {
    if j == 0 then 1 else 2 * Pow2(j - 1)
  }

  /** The number of halvings is the base-two logarithm, rounded up. */
  lemma {:induction false} HalvingsIsLogarithmic(n: nat, j: nat)
    ensures n <= Pow2(j) <==> Halvings(n) <= j
  {
    if n > 1 && j > 0 {
      HalvingsIsLogarithmic((n + 1) / 2, j - 1);
    } else if j > 0 {
      HalvingsIsLogarithmic(n, j - 1);
    }
  }

  lemma {:induction false} HalvingsGrow(m: nat, n: nat)
    requires m <= n
    ensures Halvings(m) <= Halvings(n)
  {
    if m > 1 {
      HalvingsGrow((m + 1) / 2, (n + 1) / 2);
    }
  }

  // ------------------------------------------------------------ the search

  ghost predicate Remembers(used: map<nat, bool>, q: Oracle) {
    forall id :: id in used ==> q.Ask(id) == Some(used[id])
  }

  function Count(b: bool): nat {
    if b then 1 else 0
  }

  /** checkAvailableBatch: asks only about an ID that is not in the memo. */
  method CheckAvailableBatch(q: Oracle, id: nat, used: map<nat, bool>) returns (r: Result<map<nat, bool>, ()>)
    requires Remembers(used, q)
    ensures r.Err? <==> id !in used && q.Ask(id).None?
    ensures r.Ok? ==> Remembers(r.value, q) && |r.value| <= |used| + Count(id !in used)
    ensures r.Ok? ==> r.value == if id in used then used else used[id := q.Ask(id).value]
  {
    if id in used {
      return Ok(used);
    }
    var wasExecuted := q.Ask(id);
    if wasExecuted.None? {
      return Err(());
    }
    return Ok(used[id := wasExecuted.value]);
  }

  /** The loop's bounds after `bounds` upper bounds and `mids` halvings, the first `mids` being zero. */
  ghost predicate Bracketed(q: Oracle, k: nat, high: nat, low: nat, bounds: nat, mids: nat) {
    && 1 <= bounds <= k
    && low < high <= STRIDE * bounds
    && (if mids == 0 then high == STRIDE * bounds && low == 1
        else q.Ask(high) == Some(false) && q.Ask(low) == Some(true))
    && mids + Halvings(high - low) <= Halvings(STRIDE * bounds - 1)
  }

  /** A pass that goes on raises the bound or halves the interval; one that returns has found a usable ID. */
  lemma RoundKeepsBracket(q: Oracle, k: nat, high: nat, low: nat, bounds: nat, mids: nat)
    requires Halts(q, k) && Bracketed(q, k, high, low, bounds, mids)
    ensures bounds + mids <= k + Halvings(STRIDE * k - 1)
    ensures var round := RoundFrom(q, high, low);
            match round
            case Return(id) => Usable(q, id) && id <= STRIDE * k
            case Fail(_) => true
            case Continue(newHigh, newLow) =>
              if newHigh > high then
                mids == 0 && Bracketed(q, k, newHigh, newLow, bounds + 1, mids)
              else
                Bracketed(q, k, newHigh, newLow, bounds, mids + 1) && newHigh - newLow < high - low
  {
    HalvingsGrow(STRIDE * bounds - 1, STRIDE * k - 1);
    var mid := (high + low) / 2;
    HalvingsGrow(high - mid, (high - low + 1) / 2);
    HalvingsGrow(mid - low, (high - low + 1) / 2);
  }

  lemma {:induction false} BracketedAfter(q: Oracle, k: nat, n: nat) returns (bounds: nat, mids: nat)
    requires Halts(q, k) && After(q, n).Continue?
    ensures Bracketed(q, k, After(q, n).high, After(q, n).low, bounds, mids)
  {
    if n == 0 {
      return 1, 0;
    }
    var before := After(q, n - 1);
    var wasBounds, wasMids := BracketedAfter(q, k, n - 1);
    RoundKeepsBracket(q, k, before.high, before.low, wasBounds, wasMids);
    if After(q, n).high > before.high {
      return wasBounds + 1, wasMids;
    }
    return wasBounds, wasMids + 1;
  }

  /** No sum the search forms leaves a uint64 when it stops by half of that range: the IDs may be taken as unbounded. */
  lemma SumsNeverWrap(q: Oracle, k: nat, n: nat)
    requires Halts(q, k) && 2 * STRIDE * k <= U64
    requires After(q, n).Continue?
    ensures After(q, n).high + After(q, n).low < U64
  {
    var _, _ := BracketedAfter(q, k, n);
  }

  /** One answer per upper bound, one per halving and one for ID 1. */
  ghost predicate WithinBudget(used: map<nat, bool>, high: nat, low: nat, bounds: nat, mids: nat) {
    && (if bounds == 1 && mids == 0 then used == map[] else low in used)
    && (mids > 0 ==> high in used)
    && |used| <= bounds + mids + if mids > 0 then 1 else 0
  }

  /** The body of the loop. It asks at most about the two ends, if they are new, and about the middle. */
  method Pass(q: Oracle, high: nat, low: nat, used: map<nat, bool>) returns (round: Round, now: map<nat, bool>)
    requires Remembers(used, q) && low < high
    ensures round == RoundFrom(q, high, low)
    ensures Remembers(now, q)
    ensures |now| <= |used| + Count(high !in used) + Count(low !in used) + Count(round.Continue? && round.high <= high)
    ensures round.Continue? ==> round.low in now && (round.high <= high ==> round.high in now)
    ensures round.Fail? ==> round.asked !in now && q.Ask(round.asked).None?
  {
    var checkedHigh := CheckAvailableBatch(q, high, used);
    if checkedHigh.Err? {
      return Fail(high), used;
    }
    now := checkedHigh.value;
    var checkedLow := CheckAvailableBatch(q, low, now);
    if checkedLow.Err? {
      return Fail(low), now;
    }
    now := checkedLow.value;
    if !now[low] {
      return Return(low), now;
    }
    if now[high] && now[low] {
      return Continue(high + STRIDE, low), now;
    }
    assert q.Ask(high) == Some(false) && q.Ask(low) == Some(true);
    var mid := Middle(high, low);
    if mid == low {
      return Return(high), now;
    }
    var checkedMid := CheckAvailableBatch(q, mid, now);
    if checkedMid.Err? {
      return Fail(mid), now;
    }
    now := checkedMid.value;
    round := if now[mid] then Continue(high, mid) else Continue(mid, low);
  }

  /** findAnUsableBatchID. The memo never holds more than one answer for ID 1, one per upper bound and one per halving,
      and a failure is the failure of a query not asked before. For the width of the IDs see SumsNeverWrap. */
  method FindAnUsableBatchId(q: Oracle, ghost k: nat)
    returns (r: Result<nat, nat>, ghost rounds: nat, ghost asked: map<nat, bool>)
    requires Halts(q, k)
    ensures r.Ok? ==> Usable(q, r.value) && r.value <= STRIDE * k
    ensures After(q, rounds) == if r.Ok? then Return(r.value) else Fail(r.error)
    ensures Remembers(asked, q) && |asked| <= 1 + k + Halvings(STRIDE * k - 1)
    ensures r.Err? ==> r.error !in asked && q.Ask(r.error).None?
  {
    var high: nat, low: nat := STRIDE, 1;
    var used: map<nat, bool> := map[];
    ghost var bounds, mids := 1, 0;
    rounds := 0;
    while true
      invariant Bracketed(q, k, high, low, bounds, mids)
      invariant Remembers(used, q) && WithinBudget(used, high, low, bounds, mids)
      invariant After(q, rounds) == Continue(high, low)
      decreases k - bounds, high - low
    {
      var round, now := Pass(q, high, low, used);
      RoundKeepsBracket(q, k, high, low, bounds, mids);
      rounds, used := rounds + 1, now;
      assert After(q, rounds) == round;
      match round {
        case Return(id) => {
          return Ok(id), rounds, used;
        }
        case Fail(id) => {
          return Err(id), rounds, used;
        }
        case Continue(newHigh, newLow) => {
          if newHigh > high {
            bounds := bounds + 1;
          } else {
            mids := mids + 1;
          }
          high, low := newHigh, newLow;
        }
      }
    }
  }
}
