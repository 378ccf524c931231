/** Admission deadlines (ownership.cpp: saturated_add, DeadlineBounds::make, http_drain_deadline). */
module Deadlines {
  import opened Wrappers

  const NS_PER_MS: int := 1_000_000
  const WIRE_BUDGET_NS: int := 5000 * NS_PER_MS
  const EXECUTION_BUDGET_NS: int := 4500 * NS_PER_MS

  datatype Bounds = Bounds(admitted: U64, cutoff: U64, wire: U64)

  function SaturatedAdd(left: U64, right: U64): U64 {
    if left > U64_MAX - right then U64_MAX else left + right
  }

  function Min(a: U64, b: U64): U64 {
    if a < b then a else b
  }

  function Make(admitted: U64, enclosing: Option<U64>): Option<Bounds> {
    var budget := SaturatedAdd(admitted, WIRE_BUDGET_NS);
    var wire := if enclosing.Some? then Min(budget, enclosing.value) else budget;
    if wire <= admitted then None
    else Some(Bounds(admitted, Min(SaturatedAdd(admitted, EXECUTION_BUDGET_NS), wire), wire))
  }

  /** The test of the ResponseArbiter constructor. */
  predicate ArbiterAccepts(b: Bounds) {
    && b.admitted < b.cutoff <= b.wire
    && b.wire <= SaturatedAdd(b.admitted, WIRE_BUDGET_NS)
    && b.cutoff <= SaturatedAdd(b.admitted, EXECUTION_BUDGET_NS)
  }

  /** The test of AuthenticationOwner::create. */
  predicate AuthenticationAccepts(b: Bounds) {
    var ceiling := Make(b.admitted, Some(b.wire));
    && ceiling.Some?
    && b.admitted < b.cutoff <= ceiling.value.cutoff
    && b.wire == ceiling.value.wire
  }

  /** The time part of validate_context and valid_dispatch_binding. */
  predicate BindingAccepts(b: Bounds) {
    && b.admitted <= b.cutoff <= b.wire
    && b.wire - b.admitted <= WIRE_BUDGET_NS
    && b.cutoff - b.admitted <= EXECUTION_BUDGET_NS
  }

  /** An instant a request admitted at `admitted` may still use, given a budget and an enclosing deadline. */
  predicate Usable(t: int, admitted: U64, budget: int, enclosing: Option<U64>) {
    && t <= U64_MAX
    && t <= admitted + budget
    && (enclosing.Some? ==> t <= enclosing.value)
  }

  /** Both deadlines are the last usable instants; Make refuses exactly when none after admission is usable. */
  lemma MakeIsGreatest(admitted: U64, enclosing: Option<U64>)
    ensures Make(admitted, enclosing).None? <==>
            forall t: int :: t > admitted ==> !Usable(t, admitted, WIRE_BUDGET_NS, enclosing)
    ensures Make(admitted, enclosing).Some? ==>
              var b := Make(admitted, enclosing).value;
              && b.admitted == admitted
              && (forall t: int :: Usable(t, admitted, WIRE_BUDGET_NS, enclosing) <==> t <= b.wire)
              && (forall t: int :: Usable(t, admitted, EXECUTION_BUDGET_NS, enclosing) <==> t <= b.cutoff)
  {
    assert Usable(admitted + 1, admitted, WIRE_BUDGET_NS, enclosing) <==> Make(admitted, enclosing).Some?;
  }

  /** Every owner that re-checks bounds accepts what Make produced, and Make reproduces its own output. */
  lemma MakeSatisfiesEveryOwner(admitted: U64, enclosing: Option<U64>)
    requires Make(admitted, enclosing).Some?
    ensures var b := Make(admitted, enclosing).value;
            && ArbiterAccepts(b) && AuthenticationAccepts(b) && BindingAccepts(b)
            && Make(b.admitted, Some(b.wire)) == Some(b)
  {
  }

  /** The deadline of a drain: the configured time from now, cut by the package's and the coordinator's own. */
  function HttpDrainDeadline(now: U64, configuredMs: nat, package: Option<U64>, coordinator: Option<U64>): Option<U64> {
    if configuredMs < 1000 || configuredMs > 5000 then None
    else
      var budget := SaturatedAdd(now, configuredMs * NS_PER_MS);
      var cut := if package.Some? then Min(budget, package.value) else budget;
      Some(if coordinator.Some? then Min(cut, coordinator.value) else cut)
  }

  /** It is the last instant all of them allow, and is refused exactly for a configuration out of range. */
  lemma DrainDeadlineIsGreatest(now: U64, configuredMs: nat, package: Option<U64>, coordinator: Option<U64>)
    ensures HttpDrainDeadline(now, configuredMs, package, coordinator).Some? <==> 1000 <= configuredMs <= 5000
    ensures HttpDrainDeadline(now, configuredMs, package, coordinator).Some? ==>
              forall t: int :: t <= HttpDrainDeadline(now, configuredMs, package, coordinator).value <==>
                               Usable(t, now, configuredMs * NS_PER_MS, package)
                                   && (coordinator.Some? ==> t <= coordinator.value)
  {
  }
}
