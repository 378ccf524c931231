/** Database-domain slots of the dispatch store (dispatch_store.cpp: DispatchStoreRoot and StoreDatabaseOwner).
    Eight request slots and one startup slot; a slot is taken before any native client exists and given back only after
    the native clients are really closed. */
module StoreRoot {
  import opened Wrappers
  import opened Limits

  const REQUEST_SLOTS: nat := 8
  const SLOTS: nat := 9

  /** `lease`: opened with an admission lease, without which no session is created and so nothing ever begins.  `begun`
      operations were registered, `done` of them are answered, and the callbacks of `running` of those have not
      returned yet. */
  datatype Domain = Domain(
    slot: nat,
    lease: bool,
    closing: bool,
    closed: bool,
    failure: bool,
    released: bool,
    begun: nat,
    done: nat,
    running: nat)

  datatype Root = Root(accepting: bool, failed: bool, slots: seq<Option<nat>>, domains: seq<Domain>)

  /** `StartClose`, `NativeClosed`, `CompleteOperation` and `Release` are the parts of one `close`; other threads run
      between them.  An operation answered by a caller or a driver thread is marked done first, and its callback runs
      outside every lock: it returns, or throws, at any later time.  Those that `close` completes run on its own
      thread. */
  datatype Event =
    | Open(startup: bool, admission: bool, process: bool, reserved: bool, clients: bool)
    | BeginOperation(id: nat)
    | FinishOperation(id: nat)
    | CallbackReturned(id: nat, threw: bool)
    | RollbackFailed(id: nat)
    | StartClose(id: nat)
    | NativeClosed(id: nat)
    | CompleteOperation(id: nat, threw: bool)
    | Release(id: nat)
    | CloseAdmission

  function FirstFree(slots: seq<Option<nat>>, from: nat, last: nat): (k: nat)
    requires from <= last <= |slots|
    ensures from <= k <= last && (k < last ==> slots[k].None?)
    ensures forall i :: from <= i < k ==> slots[i].Some?
    decreases last - from
  {
    if from < last && slots[from].Some? then FirstFree(slots, from + 1, last) else from
  }

  predicate Opens(r: Root, e: Event)
    requires e.Open? && |r.slots| == SLOTS
  {
    && e.process && (e.startup || (e.admission && e.reserved)) && (e.admission ==> e.reserved) && r.accepting
    && if e.startup then FirstFree(r.slots, REQUEST_SLOTS, SLOTS) < SLOTS
       else FirstFree(r.slots, 0, REQUEST_SLOTS) < REQUEST_SLOTS
  }

  function SlotFor(r: Root, startup: bool): nat
    requires |r.slots| == SLOTS
  {
    if startup then FirstFree(r.slots, REQUEST_SLOTS, SLOTS) else FirstFree(r.slots, 0, REQUEST_SLOTS)
  }

  function SetDomain(r: Root, id: nat, d: Domain): Root
    requires id < |r.domains|
  {
    r.(domains := r.domains[id := d])
  }

  /** A step of a registered domain that leaves the root alone. */
  function DomainStep(d: Domain, e: Event): Domain {
    match e
    case BeginOperation(_) =>
      if !d.lease || d.closing || d.begun >= MAX_OPERATIONS then d else d.(begun := d.begun + 1)
    case FinishOperation(_) => if d.done < d.begun then d.(done := d.done + 1, running := d.running + 1) else d
    case CallbackReturned(_, threw) =>
      if d.running == 0 then d else d.(running := d.running - 1, failure := d.failure || threw)
    case RollbackFailed(_) => if d.closed then d else d.(failure := true)
    case StartClose(_) => d.(closing := true)
    case NativeClosed(_) => if d.closing then d.(closed := true) else d
    case CompleteOperation(_, threw) =>
      if d.closed && d.done < d.begun then d.(done := d.done + 1, failure := d.failure || threw) else d
    case _ => d
  }

  function Step(r: Root, e: Event): Root {
    match e
    case Open(startup, admission, _, _, clients) =>
      if |r.slots| != SLOTS || !Opens(r, e) then r
      else
        var k := SlotFor(r, startup);
        r.(slots := r.slots[k := Some(|r.domains|)],
           domains := r.domains + [Domain(k, admission, !clients, false, false, false, 0, 0, 0)])
    case Release(id) =>
      if id >= |r.domains| || !Releasable(r.domains[id]) || r.domains[id].slot >= |r.slots| then r
      else
        var d := r.domains[id];
        SetDomain(r, id, d.(released := true)).(failed := r.failed || d.failure, slots := r.slots[d.slot := None])
    case CloseAdmission => r.(accepting := false)
    case _ => if e.id >= |r.domains| then r else SetDomain(r, e.id, DomainStep(r.domains[e.id], e))
  }

  /** Closed with every operation completed. */
  predicate Releasable(d: Domain) {
    d.closed && !d.released && d.done == d.begun
  }

  const NEW := Root(true, false, [None, None, None, None, None, None, None, None, None], [])

  function After(es: seq<Event>, i: nat): Root
    requires i <= |es|
  {
    if i == 0 then NEW else Step(After(es, i - 1), es[i - 1])
  }

  // ----- what every step keeps -----

  predicate DomainOk(r: Root, id: nat)
    requires id < |r.domains|
  {
    var d := r.domains[id];
    && d.slot < |r.slots|
    && (!d.released ==> r.slots[d.slot] == Some(id))
    && (d.closed ==> d.closing) && (d.released ==> d.closed && d.done == d.begun)
    && d.running <= d.done <= d.begun <= MAX_OPERATIONS && (!d.lease ==> d.begun == 0)
  }

  predicate Inv(r: Root) {
    && |r.slots| == SLOTS
    && (forall id :: 0 <= id < |r.domains| ==> DomainOk(r, id))
    && (forall k :: 0 <= k < SLOTS && r.slots[k].Some? ==>
          r.slots[k].value < |r.domains| && r.domains[r.slots[k].value].slot == k
              && !r.domains[r.slots[k].value].released)
  }

  predicate Later(r: Root, t: Root) {
    && |r.domains| <= |t.domains| && (r.failed ==> t.failed)
    && (!r.accepting ==> !t.accepting && |t.domains| == |r.domains|)
    && (forall id :: 0 <= id < |r.domains| ==>
          && t.domains[id].slot == r.domains[id].slot
          && (r.domains[id].closed ==> t.domains[id].closed)
          && (r.domains[id].failure ==> t.domains[id].failure)
          && (r.domains[id].released ==> t.domains[id].released && t.domains[id].running <= r.domains[id].running))
  }

  lemma StepInv(r: Root, e: Event)
    requires Inv(r)
    ensures Inv(Step(r, e)) && Later(r, Step(r, e))
  {
    match e
    case Open(_, _, _, _, _) =>
      if Opens(r, e) {
        OpenInv(r, e);
      }
    case Release(id) =>
      if id < |r.domains| && Releasable(r.domains[id]) {
        ReleaseInv(r, id);
      }
    case CloseAdmission =>
      var t := Step(r, e);
      assert forall id :: 0 <= id < |r.domains| ==> DomainOk(r, id) ==> DomainOk(t, id);
    case _ =>
      if e.id < |r.domains| {
        MarkInv(r, e);
      }
  }

  lemma OpenInv(r: Root, e: Event)
    requires Inv(r) && e.Open? && Opens(r, e)
    ensures Inv(Step(r, e)) && Later(r, Step(r, e))
  {
    var t := Step(r, e);
    forall id | 0 <= id < |t.domains|
      ensures DomainOk(t, id)
    {
      if id < |r.domains| {
        assert DomainOk(r, id);
      }
    }
  }

  lemma ReleaseInv(r: Root, id: nat)
    requires Inv(r) && id < |r.domains| && Releasable(r.domains[id])
    ensures Inv(Step(r, Release(id))) && Later(r, Step(r, Release(id)))
  {
    var t := Step(r, Release(id));
    assert DomainOk(r, id);
    forall other | 0 <= other < |t.domains|
      ensures DomainOk(t, other)
    {
      assert DomainOk(r, other);
    }
  }

  lemma MarkInv(r: Root, e: Event)
    requires Inv(r) && !e.Open? && !e.Release? && !e.CloseAdmission? && e.id < |r.domains|
    ensures Inv(Step(r, e)) && Later(r, Step(r, e))
  {
    hide DomainStep;
    var t := Step(r, e);
    assert DomainOk(r, e.id);
    DomainStepOk(r.domains[e.id], e);
    forall other | 0 <= other < |t.domains|
      ensures DomainOk(t, other)
    {
      assert DomainOk(r, other);
    }
  }

  lemma DomainStepOk(d: Domain, e: Event)
    requires (d.closed ==> d.closing) && (d.released ==> d.closed && d.done == d.begun)
    requires d.running <= d.done <= d.begun <= MAX_OPERATIONS && (!d.lease ==> d.begun == 0)
    ensures var t := DomainStep(d, e);
            && t.slot == d.slot && t.released == d.released && (d.closed ==> t.closed) && (d.failure ==> t.failure)
            && (t.closed ==> t.closing) && (t.released ==> t.closed && t.done == t.begun && t.running <= d.running)
            && t.running <= t.done <= t.begun <= MAX_OPERATIONS && t.lease == d.lease && (!t.lease ==> t.begun == 0)
  {
  }

  lemma LaterSelf(r: Root)
    ensures Later(r, r)
  {
  }

  lemma LaterTransitive(r: Root, s: Root, t: Root)
    requires Later(r, s) && Later(s, t)
    ensures Later(r, t)
  {
  }

  lemma {:induction false} RunInv(es: seq<Event>, i: nat, j: nat)
    requires i <= j <= |es|
    ensures Inv(After(es, i)) && Inv(After(es, j)) && Later(After(es, i), After(es, j))
    decreases j
  {
    hide Step;
    if j > 0 {
      RunInv(es, if i < j then i else j - 1, j - 1);
      StepInv(After(es, j - 1), es[j - 1]);
    }
  }

  /** In every interleaving a domain holds its own slot from registration until it is released, which is after its
      native clients are closed and its operations answered; no two unreleased domains share a slot. */
  lemma SlotHeldUntilClosed(es: seq<Event>, i: nat, j: nat, id: nat)
    requires i <= j <= |es| && id < |After(es, i).domains|
    ensures var r := After(es, j);
            && id < |r.domains|
            && var d := r.domains[id];
               && d.slot == After(es, i).domains[id].slot < |r.slots|
               && (if d.released then d.closed && d.done == d.begun else r.slots[d.slot] == Some(id))
               && (!d.lease ==> d.begun == 0)
               && (!d.released ==>
                     forall other :: 0 <= other < |r.domains| && other != id && !r.domains[other].released ==>
                       d.slot != r.domains[other].slot)
  {
    RunInv(es, i, j);
    var r := After(es, j);
    assert DomainOk(r, id);
    forall other | 0 <= other < |r.domains| && other != id && !r.domains[id].released && !r.domains[other].released
      ensures r.domains[id].slot != r.domains[other].slot
    {
      assert DomainOk(r, other);
    }
  }

  /** What `drain` looks at when it answers. */
  predicate Drained(r: Root) {
    !r.accepting && !r.failed && NoneHeld(r.slots)
  }

  predicate NoneHeld(slots: seq<Option<nat>>) {
    forall k :: 0 <= k < |slots| ==> slots[k].None?
  }

  /** Once `drain` answers true every domain ever registered is closed and released with all its operations answered,
      and it stays so: no later step brings a domain back. */
  lemma DrainIsFinal(es: seq<Event>, i: nat, j: nat)
    requires i <= j <= |es| && Drained(After(es, i))
    ensures Drained(After(es, j)) && |After(es, j).domains| == |After(es, i).domains|
    ensures forall id :: 0 <= id < |After(es, j).domains| ==>
              var d := After(es, j).domains[id]; d.closed && d.released && d.done == d.begun
  {
    var r, t := After(es, i), After(es, j);
    RunInv(es, i, j);
    forall id | 0 <= id < |t.domains|
      ensures t.domains[id].released && t.domains[id].closed && t.domains[id].done == t.domains[id].begun
    {
      assert DomainOk(r, id) && DomainOk(t, id);
    }
    DrainedStays(es, i, j);
  }

  lemma {:induction false} DrainedStays(es: seq<Event>, i: nat, j: nat)
    requires i <= j <= |es| && Drained(After(es, i))
    ensures Drained(After(es, j))
    decreases j
  {
    if i < j {
      DrainedStays(es, i, j - 1);
      RunInv(es, j - 1, j - 1);
      DrainedStep(After(es, j - 1), es[j - 1]);
    }
  }

  lemma DrainedStep(r: Root, e: Event)
    requires Inv(r) && Drained(r)
    ensures Drained(Step(r, e))
  {
    forall id | 0 <= id < |r.domains|
      ensures r.domains[id].released
    {
      assert DomainOk(r, id);
    }
  }

  // ----- failures of callbacks -----

  /** A callback that was running when its domain was released throws. */
  predicate ThrowsLate(es: seq<Event>, k: nat, id: nat) {
    && k < |es| && es[k] == CallbackReturned(id, true)
    && var r := After(es, k);
       id < |r.domains| && r.domains[id].released && r.domains[id].running > 0
  }

  /** In every run the failures of a released domain are on record at the root, except exactly those of callbacks that
      outlived the release: a true answer of `drain` means that no callback threw before its domain was released. */
  lemma {:induction false} UnrecordedIsLate(es: seq<Event>, i: nat, id: nat)
    requires i <= |es| && id < |After(es, i).domains| && After(es, i).domains[id].released && !After(es, i).failed
    ensures After(es, i).domains[id].failure <==> exists k: nat :: k < i && ThrowsLate(es, k, id)
    decreases i
  {
    hide ThrowsLate, Step;
    if i > 0 {
      var r, t := After(es, i - 1), After(es, i);
      RunInv(es, i - 1, i);
      if id < |r.domains| && r.domains[id].released {
        UnrecordedIsLate(es, i - 1, id);
        ReleasedFailure(es, i - 1, id);
      } else {
        forall k: nat | k < i
          ensures !ThrowsLate(es, k, id)
        {
          NotLateBefore(es, k, i - 1, id);
        }
        JustReleased(r, es[i - 1], id);
      }
    }
  }

  lemma ReleasedFailure(es: seq<Event>, i: nat, id: nat)
    requires i < |es| && id < |After(es, i).domains| && After(es, i).domains[id].released
    ensures id < |After(es, i + 1).domains|
    ensures After(es, i + 1).domains[id].failure <==> After(es, i).domains[id].failure || ThrowsLate(es, i, id)
  {
    hide Inv, Later;
    RunInv(es, i, i + 1);
    ReleasedOk(After(es, i), id);
  }

  lemma ReleasedOk(r: Root, id: nat)
    requires Inv(r) && id < |r.domains| && r.domains[id].released
    ensures r.domains[id].closed && r.domains[id].done == r.domains[id].begun
  {
    assert DomainOk(r, id);
  }

  lemma NotLateBefore(es: seq<Event>, k: nat, i: nat, id: nat)
    requires k <= i <= |es| && (id < |After(es, i).domains| ==> !After(es, i).domains[id].released)
    ensures !ThrowsLate(es, k, id)
  {
    RunInv(es, k, i);
  }

  lemma JustReleased(r: Root, e: Event, id: nat)
    requires Inv(r) && (id < |r.domains| ==> !r.domains[id].released)
    requires id < |Step(r, e).domains| && Step(r, e).domains[id].released && !Step(r, e).failed
    ensures !Step(r, e).domains[id].failure
  {
  }

  /** Whatever happens after a release, every failure of the domain is on record at the root: exactly if no callback of
      it was still running at the release, or a failure was on record anyway. */
  lemma RecordedIffNoneRunning(es: seq<Event>, k: nat, id: nat)
    requires k < |es| && es[k] == Release(id) && id < |After(es, k).domains| && Releasable(After(es, k).domains[id])
    ensures id < |After(es, k + 1).domains|
    ensures After(es, k).domains[id].running == 0 || After(es, k + 1).failed
      <==> AllRecorded(es[..k + 1], id)
  {
    hide Step, Inv, RecordsAll;
    RunInv(es, k, k + 1);
    ReleaseKeeps(es, k, id);
    if After(es, k).domains[id].running == 0 || After(es, k + 1).failed {
      var before := es[..k + 1];
      forall fs: seq<Event>
        ensures RecordsAll(before, fs, id)
      {
        QuietRecords(es, k, id, fs);
      }
    } else {
      ThrowsAfterwards(es, k, id);
    }
  }

  /** At the end of the continued run a failure of the domain implies that the root knows of one. */
  predicate RecordsAll(es: seq<Event>, fs: seq<Event>, id: nat) {
    var r := After(es + fs, |es + fs|);
    id < |r.domains| && r.domains[id].failure ==> r.failed
  }

  ghost predicate AllRecorded(es: seq<Event>, id: nat) {
    forall fs: seq<Event> :: RecordsAll(es, fs, id)
  }

  lemma ReleaseKeeps(es: seq<Event>, k: nat, id: nat)
    requires k < |es| && es[k] == Release(id) && id < |After(es, k).domains| && Releasable(After(es, k).domains[id])
    ensures var d, r := After(es, k).domains[id], After(es, k + 1);
            id < |r.domains| && r.domains[id] == d.(released := true) && (d.failure ==> r.failed)
  {
    RunInv(es, k, k);
    assert DomainOk(After(es, k), id);
  }

  lemma QuietRecords(es: seq<Event>, k: nat, id: nat, fs: seq<Event>)
    requires k < |es| && id < |After(es, k + 1).domains| && After(es, k + 1).domains[id].released
    requires After(es, k + 1).domains[id].failure ==> After(es, k + 1).failed
    requires After(es, k + 1).domains[id].running == 0 || After(es, k + 1).failed
    ensures RecordsAll(es[..k + 1], fs, id)
  {
    hide Step, Inv, ThrowsLate;
    var all := es[..k + 1] + fs;
    SamePrefix(es, all, k + 1);
    RunInv(all, k + 1, |all|);
    var t := After(all, |all|);
    if !t.failed && t.domains[id].failure {
      UnrecordedIsLate(all, |all|, id);
      var j: nat :| j < |all| && ThrowsLate(all, j, id);
      NoneLate(all, k + 1, j, id);
    }
  }

  lemma NoneLate(es: seq<Event>, k: nat, j: nat, id: nat)
    requires k <= |es| && j < |es| && id < |After(es, k).domains|
    requires var d := After(es, k).domains[id]; d.running == 0 && d.released && !d.failure
    ensures !ThrowsLate(es, j, id)
  {
    if k <= j {
      RunInv(es, k, j);
    } else if ThrowsLate(es, j, id) {
      ReleasedFailure(es, j, id);
      RunInv(es, j + 1, k);
    }
  }

  lemma ThrowsAfterwards(es: seq<Event>, k: nat, id: nat)
    requires k < |es| && id < |After(es, k + 1).domains|
    requires After(es, k + 1).domains[id].running > 0 && !After(es, k + 1).failed
    ensures !RecordsAll(es[..k + 1], [CallbackReturned(id, true)], id)
  {
    var all := es[..k + 1] + [CallbackReturned(id, true)];
    SamePrefix(es, all, k + 1);
    assert After(all, k + 2) == Step(After(all, k + 1), CallbackReturned(id, true));
  }

  lemma {:induction false} SamePrefix(es: seq<Event>, fs: seq<Event>, n: nat)
    requires n <= |es| && n <= |fs| && es[..n] == fs[..n]
    ensures After(es, n) == After(fs, n)
  {
    hide Step;
    if n > 0 {
      assert es[..n - 1] == es[..n][..n - 1] && fs[..n - 1] == fs[..n][..n - 1];
      assert es[n - 1] == es[..n][n - 1] && fs[n - 1] == fs[..n][n - 1];
      SamePrefix(es, fs, n - 1);
    }
  }

  /** A callback of a request domain that is still running when the domain is released, and throws after the drain. */
  const LATE_THROW := [
    Open(false, true, true, true, true), BeginOperation(0), FinishOperation(0), StartClose(0), NativeClosed(0),
    Release(0), CloseAdmission, CallbackReturned(0, true)]

  lemma DrainMissesLateThrow()
    ensures Drained(After(LATE_THROW, 7)) && Drained(After(LATE_THROW, 8)) && |After(LATE_THROW, 8).domains| == 1
    ensures After(LATE_THROW, 8).domains[0].failure
  {
    LateThrowReleased();
    assert After(LATE_THROW, 7) == Step(After(LATE_THROW, 6), CloseAdmission);
    assert After(LATE_THROW, 8) == Step(After(LATE_THROW, 7), CallbackReturned(0, true));
  }

  lemma LateThrowReleased()
    ensures After(LATE_THROW, 6) == NEW.(domains := [Domain(0, true, true, true, false, true, 1, 1, 1)])
  {
    assert FirstFree(NEW.slots, 0, 8) == 0;
    var es := LATE_THROW;
    var slots := NEW.slots[0 := Some(0)];
    assert After(es, 1) == NEW.(slots := slots, domains := [Domain(0, true, false, false, false, false, 0, 0, 0)]);
    assert After(es, 2) == NEW.(slots := slots, domains := [Domain(0, true, false, false, false, false, 1, 0, 0)]);
    assert After(es, 3) == NEW.(slots := slots, domains := [Domain(0, true, false, false, false, false, 1, 1, 1)]);
    assert After(es, 4) == NEW.(slots := slots, domains := [Domain(0, true, true, false, false, false, 1, 1, 1)]);
    assert After(es, 5) == NEW.(slots := slots, domains := [Domain(0, true, true, true, false, false, 1, 1, 1)]);
    assert slots[0 := None] == NEW.slots;
  }

  // ----- the root as an object -----

  lemma DomainFacts(r: Root, id: nat)
    requires Inv(r) && id < |r.domains|
    ensures |r.slots| == SLOTS && DomainOk(r, id)
  {
  }

  /** A held slot belongs to an unreleased domain. */
  lemma SlotFacts(r: Root)
    requires Inv(r)
    ensures |r.slots| == SLOTS
    ensures forall k :: 0 <= k < SLOTS && r.slots[k].Some? ==>
              r.slots[k].value < |r.domains| && r.domains[r.slots[k].value].slot == k
                  && !r.domains[r.slots[k].value].released
  {
    hide DomainOk;
  }

  lemma FailedStays(r: Root, t: Root)
    requires Later(r, t) && r.failed
    ensures t.failed
  {
  }

  class DispatchStoreRoot {
    var accepting: bool
    var failed: bool
    const owners: array<Option<nat>>
    var domains: seq<Domain>

    ghost function View(): Root
      reads this, owners
    {
      Root(accepting, failed, owners[..], domains)
    }

    constructor ()
      ensures View() == NEW && Inv(View()) && fresh(owners)
    {
      accepting, failed, domains := true, false, [];
      owners := new Option<nat>[SLOTS](_ => None);
    }

    method OpenImpl(startup: bool, admission: bool, process: bool, reserved: bool, clients: bool)
      returns (owner: Option<nat>)
      requires Inv(View())
      modifies this, owners
      ensures View() == Step(old(View()), Open(startup, admission, process, reserved, clients)) && Inv(View())
      ensures owner.Some? <==> clients && old(Opens(View(), Open(startup, admission, process, reserved, clients)))
      ensures owner.Some? ==> owner.value == old(|domains|) < |domains|
    {
      ghost var e := Open(startup, admission, process, reserved, clients);
      StepInv(View(), e);
      if !process || (!startup && !admission) || (admission && !reserved) || !accepting {
        return None;
      }
      var index := if startup then REQUEST_SLOTS else 0;
      var last := if startup then SLOTS else REQUEST_SLOTS;
      while index < last && owners[index].Some?
        invariant index <= last
        invariant FirstFree(owners[..], index, last) == SlotFor(View(), startup)
      {
        index := index + 1;
      }
      if index == last {
        return None;
      }
      owners[index] := Some(|domains|);
      domains := domains + [Domain(index, admission, !clients, false, false, false, 0, 0, 0)];
      owner := if clients then Some(|domains| - 1) else None;
    }

    /** Close up to the deadline: nothing is released unless the native clients really closed; then the operations
        nobody answered are completed, and `throws` says whose callbacks throw. */
    method Close(id: nat, native: bool, throws: set<(nat, nat)>) returns (ok: bool)
      requires Inv(View()) && id < |domains|
      modifies this, owners
      ensures Inv(View()) && Later(old(View()), View()) && |domains| == old(|domains|) && accepting == old(accepting)
      ensures ok <==> (native || old(domains[id].closed)) && !domains[id].failure
      ensures domains[id].failure <==>
                || old(domains[id].failure)
                || (native && !old(domains[id].closed)
                    && exists m :: old(domains[id].done) <= m < old(domains[id].begun) && (id, m) in throws)
      ensures native && !old(domains[id].closed) ==>
                && domains[id].released && domains[id].done == domains[id].begun
                && domains[id].slot < SLOTS && owners[..] == old(owners[..])[domains[id].slot := None]
                && failed == (old(failed) || domains[id].failure)
      ensures !native || old(domains[id].closed) ==> owners[..] == old(owners[..]) && failed == old(failed)
      ensures domains[id].slot == old(domains[id].slot)
      ensures forall other :: 0 <= other < |domains| && other != id ==> domains[other] == old(domains[other])
    {
      hide Inv, Later;
      DomainFacts(View(), id);
      LaterSelf(View());
      if domains[id].closed {
        return !domains[id].failure;
      }
      StepInv(View(), StartClose(id));
      domains := domains[id := domains[id].(closing := true)];
      if !native {
        return false;
      }
      ghost var closing := View();
      EndDomain(id, throws);
      LaterTransitive(old(View()), closing, View());
      ok := !domains[id].failure;
    }

    /** The part of a close after the native clients are gone. */
    method EndDomain(id: nat, throws: set<(nat, nat)>)
      requires Inv(View()) && id < |domains| && domains[id].closing && !domains[id].closed && !domains[id].released
      modifies this, owners
      ensures Inv(View()) && Later(old(View()), View()) && |domains| == old(|domains|) && accepting == old(accepting)
      ensures domains[id].failure <==>
                || old(domains[id].failure)
                || exists m :: old(domains[id].done) <= m < old(domains[id].begun) && (id, m) in throws
      ensures domains[id].closed && domains[id].released && domains[id].done == domains[id].begun
      ensures domains[id].slot == old(domains[id].slot)
      ensures domains[id].slot < SLOTS == owners.Length && owners[..] == old(owners[..])[domains[id].slot := None]
      ensures failed == (old(failed) || domains[id].failure)
      ensures forall other :: 0 <= other < |domains| && other != id ==> domains[other] == old(domains[other])
    {
      hide Inv, Later;
      DomainFacts(View(), id);
      StepInv(View(), NativeClosed(id));
      domains := domains[id := domains[id].(closed := true)];
      ghost var closed := View();
      CompleteAll(id, throws);
      ghost var completed := View();
      ReleaseDomain(id);
      LaterTransitive(old(View()), closed, completed);
      LaterTransitive(old(View()), completed, View());
    }

    method ReleaseDomain(id: nat)
      requires Inv(View()) && id < |domains| && Releasable(domains[id])
      modifies this, owners
      ensures View() == Step(old(View()), Release(id)) && Inv(View()) && Later(old(View()), View())
      ensures |domains| == old(|domains|) && accepting == old(accepting)
                && failed == (old(failed) || domains[id].failure)
      ensures domains[id] == old(domains[id]).(released := true) && domains[id].slot < SLOTS == owners.Length
      ensures owners[..] == old(owners[..])[domains[id].slot := None]
      ensures forall other :: 0 <= other < |domains| && other != id ==> domains[other] == old(domains[other])
    {
      hide Inv, Later;
      DomainFacts(View(), id);
      StepInv(View(), Release(id));
      failed := failed || domains[id].failure;
      owners[domains[id].slot] := None;
      domains := domains[id := domains[id].(released := true)];
    }

    /** After the native clients are closed, every operation nobody answered is completed. */
    method CompleteAll(id: nat, throws: set<(nat, nat)>)
      requires Inv(View()) && id < |domains| && domains[id].closed && !domains[id].released
      modifies this`domains
      ensures Inv(View()) && Later(old(View()), View()) && |domains| == old(|domains|)
      ensures domains[id] == old(domains[id]).(done := domains[id].begun, failure := domains[id].failure)
      ensures domains[id].failure <==>
                || old(domains[id].failure)
                || exists m :: old(domains[id].done) <= m < old(domains[id].begun) && (id, m) in throws
      ensures forall other :: 0 <= other < |domains| && other != id ==> domains[other] == old(domains[other])
    {
      hide Inv, Later;
      LaterSelf(View());
      DomainFacts(View(), id);
      ghost var d := domains[id];
      while domains[id].done < domains[id].begun
        invariant Inv(View()) && Later(old(View()), View()) && |domains| == old(|domains|)
        invariant d.done <= domains[id].done <= d.begun
        invariant domains[id] == d.(done := domains[id].done, failure := domains[id].failure)
        invariant domains[id].failure <==> d.failure || exists m :: d.done <= m < domains[id].done && (id, m) in throws
        invariant forall other :: 0 <= other < |domains| && other != id ==> domains[other] == old(domains[other])
        decreases domains[id].begun - domains[id].done
      {
        ghost var before := View();
        var threw := (id, domains[id].done) in throws;
        StepInv(View(), CompleteOperation(id, threw));
        domains := domains[id := domains[id].(done := domains[id].done + 1, failure := domains[id].failure || threw)];
        LaterTransitive(old(View()), before, View());
      }
    }

    /** Close the domain that holds slot `k`: the slot is freed, or it stays with the domain. */
    method CloseSlot(k: nat, native: bool, throws: set<(nat, nat)>) returns (closed: bool)
      requires Inv(View()) && k < SLOTS == owners.Length && owners[k].Some? && owners[k].value < |domains|
      requires domains[owners[k].value].slot == k && !domains[owners[k].value].released
      modifies this, owners
      ensures Inv(View()) && Later(old(View()), View()) && |domains| == old(|domains|) && accepting == old(accepting)
      ensures !closed ==> failed || owners[k].Some?
      ensures forall i :: 0 <= i < SLOTS && i != k ==> owners[i] == old(owners[i])
      ensures forall other :: 0 <= other < |domains| && Some(other) != old(owners[k]) ==>
                domains[other] == old(domains[other])
    {
      hide Inv, Later;
      ghost var slots := owners[..];
      closed := Close(owners[k].value, native, throws);
      assert forall i :: 0 <= i < SLOTS && i != k ==> owners[..][i] == slots[i];
      assert owners[..][k] == owners[k];
    }

    /** Close every domain found; true exactly when each really closed with no failure on record, now or before. */
    method Drain(native: set<nat>, throws: set<(nat, nat)>) returns (ok: bool)
      requires Inv(View())
      modifies this, owners
      ensures Inv(View()) && Later(old(View()), View()) && !accepting
      ensures ok <==> Drained(View())
    {
      hide Later, Inv;
      StepInv(View(), CloseAdmission);
      accepting := false;
      LaterSelf(View());
      SlotFacts(View());
      var settled := true;
      var snapshot := owners[..];
      ghost var was := View();
      ghost var stuck: nat := 0;
      var k := 0;
      while k < SLOTS
        invariant k <= SLOTS == owners.Length && Inv(View()) && Later(was, View()) && !accepting
        invariant |domains| == |was.domains|
        invariant forall i :: k <= i < SLOTS ==> owners[i] == snapshot[i]
        invariant !settled ==> failed || (stuck < k && owners[stuck].Some?)
      {
        if snapshot[k].Some? {
          ghost var before := View();
          SlotFacts(before);
          assert before.slots[k] == snapshot[k];
          var closed := CloseSlot(k, k in native, throws);
          LaterTransitive(was, before, View());
          if before.failed {
            FailedStays(before, View());
          }
          if !closed {
            settled := false;
            if owners[k].Some? {
              stuck := k;
            }
          }
        }
        k := k + 1;
      }
      LaterTransitive(old(View()), was, View());
      var none := AllFree();
      ok := settled && !failed && none;
      if !settled && !failed {
        assert View().slots[stuck] == owners[stuck];
      }
    }

    method AllFree() returns (none: bool)
      ensures none <==> NoneHeld(owners[..])
    {
      none := true;
      for i := 0 to owners.Length
        invariant none <==> forall k :: 0 <= k < i ==> owners[k].None?
      {
        none := none && owners[i].None?;
      }
    }
  }
}
