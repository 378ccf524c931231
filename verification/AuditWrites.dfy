/** The audit write registry (audit/async_write_registry.hpp): leases on pending database writes, each ended once with
    an outcome, and a wait that reports whether all of them settled well.  Admission, failure and a lease's end are
    several atomic steps each, with other threads in between. */
module AuditWrites {
  datatype Outcome = Pending | Success | Failure | Skipped

  /** `Offered` is made but not yet admitted; `Ending` is past the destructor's outcome check. */
  datatype Phase = Offered | Held | Ending | Ended | Dropped

  /** `recording`: a call of `fail` has set the outcome and is about to record the failure. */
  datatype Lease = Lease(phase: Phase, outcome: Outcome, recording: bool)

  datatype Registry = Registry(
    accepting: bool,
    failed: bool,
    initialized: bool,
    sealed: bool,
    active: int,
    leases: seq<Lease>)

  datatype Event =
    | Start
    | Pause
    | Close
    | Offer
    | Admit(lease: nat)
    | Finish(lease: nat, outcome: Outcome)
    | Record(lease: nat)
    | RecordFailure(lease: nat)
    | BeginEnd(lease: nat)
    | CompleteEnd(lease: nat)

  function SetLease(r: Registry, k: nat, l: Lease): Registry
    requires k < |r.leases|
  {
    r.(leases := r.leases[k := l])
  }

  function Step(r: Registry, e: Event): Registry {
    match e
    case Start => if r.sealed then r else r.(initialized := true, accepting := true)
    case Pause => r.(accepting := false)
    case Close => r.(sealed := true, accepting := false)
    case Offer => if r.accepting then r.(leases := r.leases + [Lease(Offered, Pending, false)]) else r
    case Admit(k) =>
      if k >= |r.leases| || r.leases[k].phase != Offered then r
      else if !r.accepting then SetLease(r, k, r.leases[k].(phase := Dropped))
      else SetLease(r, k, r.leases[k].(phase := Held)).(active := r.active + 1)
    case Finish(k, outcome) =>
      if k >= |r.leases| || r.leases[k].phase != Held || outcome == Pending || r.leases[k].outcome != Pending then r
      else SetLease(r, k, r.leases[k].(outcome := outcome, recording := outcome == Failure))
    case Record(k) =>
      if k >= |r.leases| || !r.leases[k].recording then r
      else SetLease(r, k, r.leases[k].(recording := false)).(failed := true)
    case RecordFailure(k) =>
      if k >= |r.leases| || r.leases[k].phase != Held then r else r.(failed := true)
    case BeginEnd(k) =>
      if k >= |r.leases| || r.leases[k].phase != Held || r.leases[k].recording then r
      else SetLease(r, k, r.leases[k].(phase := Ending)).(failed := r.failed || r.leases[k].outcome == Pending)
    case CompleteEnd(k) =>
      if k >= |r.leases| || r.leases[k].phase != Ending then r
      else SetLease(r, k, r.leases[k].(phase := Ended)).(active := r.active - 1)
  }

  /** wait_for_settlement, once it stops waiting. */
  predicate Settles(r: Registry) {
    r.active == 0 && !r.failed
  }

  const NEW := Registry(false, false, false, false, 0, [])

  function After(es: seq<Event>, i: nat): Registry
    requires i <= |es|
  {
    if i == 0 then NEW else Step(After(es, i - 1), es[i - 1])
  }

  // ----- what every step keeps -----

  predicate Counted(l: Lease) {
    l.phase == Held || l.phase == Ending
  }

  function ActiveLeases(leases: seq<Lease>): nat {
    if leases == [] then 0
    else ActiveLeases(leases[..|leases| - 1]) + if Counted(leases[|leases| - 1]) then 1 else 0
  }

  lemma {:induction false} ActiveUpdate(leases: seq<Lease>, k: nat, l: Lease)
    requires k < |leases|
    ensures ActiveLeases(leases[k := l]) + (if Counted(leases[k]) then 1 else 0)
         == ActiveLeases(leases) + (if Counted(l) then 1 else 0)
  {
    var n := |leases| - 1;
    if k == n {
      assert leases[k := l][..n] == leases[..n];
    } else {
      ActiveUpdate(leases[..n], k, l);
      assert leases[k := l][..n] == leases[..n][k := l];
    }
  }

  lemma {:induction false} NoneActive(leases: seq<Lease>, k: nat)
    requires ActiveLeases(leases) == 0 && k < |leases|
    ensures !Counted(leases[k])
  {
    if k < |leases| - 1 {
      NoneActive(leases[..|leases| - 1], k);
    }
  }

  predicate LeaseOk(r: Registry, l: Lease) {
    && (l.outcome == Failure ==> l.recording || r.failed)
    && (l.recording ==> l.phase == Held)
    && (l.phase == Ending || l.phase == Ended ==> l.outcome == Success || l.outcome == Skipped || r.failed)
    && (l.phase == Offered || l.phase == Dropped ==> l.outcome == Pending)
  }

  predicate Inv(r: Registry) {
    && r.active == ActiveLeases(r.leases)
    && (r.sealed ==> !r.accepting)
    && (forall k :: 0 <= k < |r.leases| ==> LeaseOk(r, r.leases[k]))
  }

  /** A step on one lease. */
  lemma LeaseInv(r: Registry, k: nat, t: Registry)
    requires Inv(r) && k < |r.leases| && |t.leases| == |r.leases| && t.leases == r.leases[k := t.leases[k]]
    requires t.sealed == r.sealed && t.accepting == r.accepting && (r.failed ==> t.failed)
    requires t.active == r.active + (if Counted(t.leases[k]) then 1 else 0) - (if Counted(r.leases[k]) then 1 else 0)
    requires LeaseOk(t, t.leases[k])
    ensures Inv(t)
  {
    hide ActiveLeases;
    ActiveUpdate(r.leases, k, t.leases[k]);
    forall j | 0 <= j < |t.leases|
      ensures LeaseOk(t, t.leases[j])
    {
      assert LeaseOk(r, r.leases[j]);
    }
  }

  predicate OnLease(e: Event) {
    !e.Start? && !e.Pause? && !e.Close? && !e.Offer?
  }

  lemma OneLeaseInv(r: Registry, e: Event)
    requires Inv(r) && OnLease(e) && e.lease < |r.leases|
    ensures Inv(Step(r, e))
  {
    hide ActiveLeases, Inv;
    OneOk(r, e.lease);
    LeaseInv(r, e.lease, Step(r, e));
  }

  lemma WholeInv(r: Registry, e: Event)
    requires Inv(r) && !OnLease(e)
    ensures Inv(Step(r, e))
  {
    var t := Step(r, e);
    assert e.Offer? && t != r ==> t.leases[..|r.leases|] == r.leases;
    forall k | 0 <= k < |t.leases|
      ensures LeaseOk(t, t.leases[k])
    {
      assert k < |r.leases| ==> LeaseOk(r, r.leases[k]);
    }
  }

  lemma StepInv(r: Registry, e: Event)
    requires Inv(r)
    ensures Inv(Step(r, e))
  {
    hide Inv;
    if !OnLease(e) {
      WholeInv(r, e);
    } else if e.lease < |r.leases| {
      OneLeaseInv(r, e);
    }
  }

  lemma OneOk(r: Registry, k: nat)
    requires Inv(r) && k < |r.leases|
    ensures LeaseOk(r, r.leases[k])
  {
  }

  /** Sealing and failures last, a lease that got its outcome keeps it, and an ended lease is over. */
  predicate Later(r: Registry, t: Registry) {
    && |r.leases| <= |t.leases| && (r.sealed ==> t.sealed) && (r.failed ==> t.failed)
    && (forall k :: 0 <= k < |r.leases| ==>
          && (r.leases[k].outcome != Pending ==> t.leases[k].outcome == r.leases[k].outcome)
          && (r.leases[k].phase == Ended || r.leases[k].phase == Dropped ==> t.leases[k] == r.leases[k]))
    && (r.sealed ==> forall k :: 0 <= k < |t.leases| && (Counted(t.leases[k]) || t.leases[k].phase == Ended) ==>
          k < |r.leases| && (Counted(r.leases[k]) || r.leases[k].phase == Ended))
  }

  /** A step on one lease that keeps its outcome once it has one and does not wake it up again. */
  lemma LeaseLater(r: Registry, k: nat, t: Registry)
    requires k < |r.leases| && |t.leases| == |r.leases| && t.leases == r.leases[k := t.leases[k]]
    requires (r.sealed ==> t.sealed) && (r.failed ==> t.failed)
    requires r.leases[k].outcome != Pending ==> t.leases[k].outcome == r.leases[k].outcome
    requires r.leases[k].phase == Ended || r.leases[k].phase == Dropped ==> t.leases[k] == r.leases[k]
    requires r.sealed && (Counted(t.leases[k]) || t.leases[k].phase == Ended) ==>
               Counted(r.leases[k]) || r.leases[k].phase == Ended
    ensures Later(r, t)
  {
  }

  lemma StepLater(r: Registry, e: Event)
    requires Inv(r)
    ensures Later(r, Step(r, e))
  {
    hide Inv, Later;
    if OnLease(e) && e.lease < |r.leases| {
      OnLeaseLater(r, e);
    } else {
      OffLeaseLater(r, e);
    }
  }

  lemma OnLeaseLater(r: Registry, e: Event)
    requires Inv(r) && OnLease(e) && e.lease < |r.leases|
    ensures Later(r, Step(r, e))
  {
    hide ActiveLeases, Inv, Later;
    if r.sealed {
      SealedRefuses(r);
    }
    OneOk(r, e.lease);
    LeaseLater(r, e.lease, Step(r, e));
  }

  lemma OffLeaseLater(r: Registry, e: Event)
    requires Inv(r) && (!OnLease(e) || e.lease >= |r.leases|)
    ensures Later(r, Step(r, e))
  {
    hide ActiveLeases, Inv;
    if r.sealed {
      SealedRefuses(r);
    }
  }

  lemma SealedRefuses(r: Registry)
    requires Inv(r) && r.sealed
    ensures !r.accepting
  {
  }

  lemma {:induction false} RunInv(es: seq<Event>, i: nat, j: nat)
    requires i <= j <= |es|
    ensures Inv(After(es, i)) && Inv(After(es, j)) && Later(After(es, i), After(es, j))
    decreases j
  {
    hide Step, Inv;
    if j == 0 {
      StartInv();
    } else {
      RunInv(es, if i < j then i else j - 1, j - 1);
      StepInv(After(es, j - 1), es[j - 1]);
      StepLater(After(es, j - 1), es[j - 1]);
    }
  }

  lemma StartInv()
    ensures Inv(NEW)
  {
  }

  /** In every interleaving the active count is the number of admitted leases not yet over, a lease gets at most one
      outcome, and none is admitted after close. */
  lemma LeasesAreCounted(es: seq<Event>, i: nat, j: nat)
    requires i <= j <= |es|
    ensures var now, later := After(es, i), After(es, j);
            && later.active == ActiveLeases(later.leases) && |now.leases| <= |later.leases|
            && (forall k :: 0 <= k < |now.leases| && now.leases[k].outcome != Pending ==>
                  later.leases[k].outcome == now.leases[k].outcome)
            && (now.sealed ==> forall k :: 0 <= k < |later.leases| && Counted(later.leases[k]) ==>
                  k < |now.leases| && Counted(now.leases[k]))
  {
    RunInv(es, i, j);
  }

  /** A wait that answers true: every lease ever admitted is over and succeeded or was skipped. */
  lemma SettledMeansWell(es: seq<Event>, i: nat, k: nat)
    requires i <= |es| && Settles(After(es, i)) && k < |After(es, i).leases|
    ensures var l := After(es, i).leases[k];
            && !Counted(l)
            && (l.phase == Ended ==> l.outcome == Success || l.outcome == Skipped)
  {
    RunInv(es, i, i);
    NoneActive(After(es, i).leases, k);
    assert LeaseOk(After(es, i), After(es, i).leases[k]);
  }

  /** Once sealed and settled, so for good: a failure is recorded only through a lease, and none is left. */
  lemma {:induction false} SealedStaysSettled(es: seq<Event>, i: nat, j: nat)
    requires i <= j <= |es| && After(es, i).sealed && Settles(After(es, i))
    ensures After(es, j).sealed && Settles(After(es, j))
    decreases j
  {
    hide Step, Inv, Later;
    if i < j {
      SealedStaysSettled(es, i, j - 1);
      RunInv(es, j - 1, j);
      SettledStep(After(es, j - 1), es[j - 1]);
    }
  }

  lemma SettledStep(r: Registry, e: Event)
    requires Inv(r) && r.sealed && Settles(r)
    ensures Settles(Step(r, e)) && Step(r, e).sealed
  {
    forall k | 0 <= k < |r.leases|
      ensures !Counted(r.leases[k]) && !r.leases[k].recording
    {
      NoneActive(r.leases, k);
      assert LeaseOk(r, r.leases[k]);
    }
  }

  // ----- the registry as an object -----

  class AuditWriteRegistry {
    var accepting: bool
    var failed: bool
    var initialized: bool
    var sealed: bool
    var active: int
    var leases: seq<Lease>

    function View(): Registry
      reads this
    {
      Registry(accepting, failed, initialized, sealed, active, leases)
    }

    constructor ()
      ensures View() == NEW && Inv(View())
    {
      accepting, failed, initialized, sealed, active, leases := false, false, false, false, 0, [];
    }

    method StartWrites() returns (ok: bool)
      requires Inv(View())
      modifies this
      ensures Inv(View()) && View() == Step(old(View()), Start) && (ok <==> accepting)
    {
      StepInv(View(), Start);
      if sealed {
        return false;
      }
      initialized, accepting := true, true;
      ok := true;
    }

    /** The part of try_acquire under the lock: admission is looked at again. */
    method AdmitOffered(k: nat) returns (admitted: bool)
      requires Inv(View()) && k < |leases| && leases[k].phase == Offered
      modifies this
      ensures Inv(View()) && View() == Step(old(View()), Admit(k)) && (admitted <==> accepting)
      ensures sealed ==> !admitted
    {
      StepInv(View(), Admit(k));
      if !accepting {
        leases := leases[k := leases[k].(phase := Dropped)];
        return false;
      }
      active := active + 1;
      leases := leases[k := leases[k].(phase := Held)];
      admitted := true;
    }

    /** The compare-exchange of an outcome: only the first one wins. */
    method FinishLease(k: nat, outcome: Outcome) returns (won: bool)
      requires Inv(View()) && k < |leases| && leases[k].phase == Held && outcome != Pending
      modifies this`leases
      ensures Inv(View()) && View() == Step(old(View()), Finish(k, outcome))
      ensures won <==> old(leases[k].outcome) == Pending
    {
      StepInv(View(), Finish(k, outcome));
      won := leases[k].outcome == Pending;
      if won {
        leases := leases[k := leases[k].(outcome := outcome, recording := outcome == Failure)];
      }
    }

    /** The lease's destructor: a lease given up without an outcome counts as a failure. */
    method EndLease(k: nat)
      requires Inv(View()) && k < |leases| && leases[k].phase == Held && !leases[k].recording
      modifies this
      ensures Inv(View()) && View() == Step(Step(old(View()), BeginEnd(k)), CompleteEnd(k))
      ensures active == old(active) - 1 && (old(leases[k].outcome) == Pending ==> failed)
    {
      StepInv(View(), BeginEnd(k));
      if leases[k].outcome == Pending {
        failed := true;
      }
      leases := leases[k := leases[k].(phase := Ending)];
      StepInv(View(), CompleteEnd(k));
      active := active - 1;
      leases := leases[k := leases[k].(phase := Ended)];
    }

    method WaitForSettlement() returns (ok: bool)
      requires Inv(View())
      ensures ok ==> forall k :: 0 <= k < |leases| ==>
                !Counted(leases[k]) && (leases[k].phase == Ended ==>
                                        leases[k].outcome == Success || leases[k].outcome == Skipped)
      ensures ok <==> active == 0 && !failed
    {
      ok := active == 0 && !failed;
      if ok {
        forall k | 0 <= k < |leases|
          ensures !Counted(leases[k]) && LeaseOk(View(), leases[k])
        {
          NoneActive(leases, k);
        }
      }
    }
  }
}
