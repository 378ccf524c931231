/** Dispatch fences (capabilities/drain.cpp): guards count the calls in flight per extension, a fence refuses new ones
    and a waiter sleeps until the count is zero.  Every critical section is one step; a guard's end is two, first the
    decrement under the global lock, later the notification under the state's own lock. */
module DispatchFence {
  import opened Wrappers

  /** `mutex` is the waiter that holds the state's own lock between its check and its sleep. */
  datatype DrainState = DrainState(inFlight: nat, fenced: bool, blocked: bool, mutex: Option<nat>)

  datatype GuardPhase = Live | Refused | Notifying | Gone
  datatype Guard = Guard(name: string, state: nat, phase: GuardPhase)

  datatype WaiterPhase = Awake | Checked | Asleep | Returned(settled: bool)
  datatype Waiter = Waiter(state: nat, phase: WaiterPhase)

  datatype Fences = Fences(
    names: map<string, nat>,
    states: seq<DrainState>,
    active: int,
    guards: seq<Guard>,
    waiters: seq<Waiter>)

  datatype Event =
    | BeginDrain(name: string)
    | EndDrain(name: string)
    | Block(name: string)
    | Enter(name: string)
    | Leave(guard: nat)
    | Notify(guard: nat)
    | Wait(state: nat)
    | Check(waiter: nat)
    | Sleep(waiter: nat)
    | SpuriousWake(waiter: nat)
    | TimeOut(waiter: nat)

  const NEW_STATE := DrainState(0, false, false, None)

  // ----- steps -----

  function SetState(s: Fences, id: nat, d: DrainState): Fences
    requires id < |s.states|
  {
    s.(states := s.states[id := d])
  }

  /** try_emplace: the state for a name, made if there is none. */
  function Ensure(s: Fences, name: string): Fences {
    if name in s.names then s
    else s.(names := s.names[name := |s.states|], states := s.states + [NEW_STATE])
  }

  function StateOf(s: Fences, name: string): Option<nat> {
    if name in s.names && s.names[name] < |s.states| then Some(s.names[name]) else None
  }

  function Fence(s: Fences, id: nat): Fences
    requires id < |s.states|
  {
    SetState(s, id, s.states[id].(fenced := true)).(active := if s.states[id].fenced then s.active else s.active + 1)
  }

  function Unfence(s: Fences, name: string, id: nat): Fences
    requires id < |s.states|
  {
    var t := SetState(s, id, s.states[id].(fenced := false, blocked := false))
             .(active := if s.states[id].fenced then s.active - 1 else s.active);
    if s.states[id].inFlight == 0 then t.(names := s.names - {name}) else t
  }

  function Admit(s: Fences, name: string, id: nat): Fences
    requires id < |s.states|
  {
    if s.states[id].fenced then s.(guards := s.guards + [Guard(name, id, Refused)])
    else
      var d := s.states[id];
      SetState(s, id, d.(inFlight := d.inFlight + 1)).(guards := s.guards + [Guard(name, id, Live)])
  }

  function SetGuard(s: Fences, g: nat, phase: GuardPhase): Fences
    requires g < |s.guards|
  {
    s.(guards := s.guards[g := s.guards[g].(phase := phase)])
  }

  /** The destructor's part under the global lock. */
  function Left(s: Fences, g: nat): Fences
    requires g < |s.guards| && s.guards[g].state < |s.states| && s.states[s.guards[g].state].inFlight > 0
  {
    var id, name := s.guards[g].state, s.guards[g].name;
    var d := s.states[id];
    var t := SetGuard(SetState(s, id, d.(inFlight := d.inFlight - 1)), g, if d.inFlight == 1 then Notifying else Gone);
    if d.inFlight == 1 && !d.fenced && !d.blocked && name in s.names && s.names[name] == id
    then t.(names := s.names - {name}) else t
  }

  function SetWaiter(s: Fences, w: nat, phase: WaiterPhase): Fences
    requires w < |s.waiters|
  {
    s.(waiters := s.waiters[w := s.waiters[w].(phase := phase)])
  }

  function WakeAll(waiters: seq<Waiter>, id: nat): (r: seq<Waiter>)
    ensures |r| == |waiters|
    ensures forall w :: 0 <= w < |r| ==>
              r[w] == if waiters[w].state == id && waiters[w].phase == Asleep then waiters[w].(phase := Awake)
                      else waiters[w]
  {
    if waiters == [] then []
    else
      var last := waiters[|waiters| - 1];
      WakeAll(waiters[..|waiters| - 1], id)
          + [if last.state == id && last.phase == Asleep then last.(phase := Awake) else last]
  }

  predicate Free(s: Fences, id: nat) {
    id < |s.states| && s.states[id].mutex.None?
  }

  function Step(s: Fences, e: Event): Fences {
    match e
    case BeginDrain(name) =>
      var t := Ensure(s, name);
      if StateOf(t, name).Some? then Fence(t, StateOf(t, name).value) else s
    case EndDrain(name) => if StateOf(s, name).Some? then Unfence(s, name, StateOf(s, name).value) else s
    case Block(name) =>
      var t := Ensure(s, name);
      if StateOf(t, name).Some?
      then SetState(t, StateOf(t, name).value, t.states[StateOf(t, name).value].(blocked := true)) else s
    case Enter(name) =>
      var t := Ensure(s, name);
      if StateOf(t, name).Some? then Admit(t, name, StateOf(t, name).value) else s
    case Leave(g) =>
      if g < |s.guards| && s.guards[g].phase == Live && s.guards[g].state < |s.states|
         && s.states[s.guards[g].state].inFlight > 0
      then Left(s, g) else s
    case Notify(g) =>
      if g < |s.guards| && s.guards[g].phase == Notifying && Free(s, s.guards[g].state)
      then SetGuard(s, g, Gone).(waiters := WakeAll(s.waiters, s.guards[g].state)) else s
    case Wait(id) => if id < |s.states| then s.(waiters := s.waiters + [Waiter(id, Awake)]) else s
    case Check(w) =>
      if w < |s.waiters| && s.waiters[w].phase == Awake && Free(s, s.waiters[w].state) then
        var id := s.waiters[w].state;
        if s.states[id].inFlight == 0 then SetWaiter(s, w, Returned(true))
        else SetState(SetWaiter(s, w, Checked), id, s.states[id].(mutex := Some(w)))
      else s
    case Sleep(w) =>
      if w < |s.waiters| && s.waiters[w].phase == Checked && s.waiters[w].state < |s.states| then
        var id := s.waiters[w].state;
        SetState(SetWaiter(s, w, Asleep), id, s.states[id].(mutex := None))
      else s
    case SpuriousWake(w) => if w < |s.waiters| && s.waiters[w].phase == Asleep then SetWaiter(s, w, Awake) else s
    case TimeOut(w) =>
      if w < |s.waiters| && s.waiters[w].phase == Asleep && Free(s, s.waiters[w].state)
      then SetWaiter(s, w, Returned(s.states[s.waiters[w].state].inFlight == 0)) else s
  }

  const EMPTY := Fences(map[], [], 0, [], [])

  function After(es: seq<Event>, i: nat): Fences
    requires i <= |es|
  {
    if i == 0 then EMPTY else Step(After(es, i - 1), es[i - 1])
  }

  // ----- what every step keeps -----

  /** Live guards on a state. */
  function Guards(guards: seq<Guard>, id: nat): nat {
    if guards == [] then 0
    else
      var last := guards[|guards| - 1];
      Guards(guards[..|guards| - 1], id) + if last.state == id && last.phase == Live then 1 else 0
  }

  predicate Mapped(s: Fences, id: nat) {
    exists name :: name in s.names && s.names[name] == id
  }

  function FencedNames(s: Fences): set<string> {
    set name | name in s.names && s.names[name] < |s.states| && s.states[s.names[name]].fenced
  }

  /** `made` is a state just put in the map and not yet used. */
  predicate StateOk(s: Fences, id: nat, made: Option<nat>)
    requires id < |s.states|
  {
    var d := s.states[id];
    && d.inFlight == Guards(s.guards, id)
    && (Mapped(s, id) <==> d.inFlight > 0 || d.fenced || d.blocked || made == Some(id))
    && (d.mutex.Some? ==> d.mutex.value < |s.waiters| && s.waiters[d.mutex.value] == Waiter(id, Checked))
  }

  predicate NotifierDue(s: Fences, id: nat) {
    exists g :: 0 <= g < |s.guards| && s.guards[g].phase == Notifying && s.guards[g].state == id
  }

  /** A waiter that has seen a nonzero count is asleep, or about to be while holding the lock: should the count have
      reached zero since, somebody still has to notify. */
  predicate WaiterOk(s: Fences, w: nat)
    requires w < |s.waiters|
  {
    var x := s.waiters[w];
    && x.state < |s.states|
    && (x.phase == Checked ==> s.states[x.state].mutex == Some(w))
    && ((x.phase == Checked || x.phase == Asleep) && s.states[x.state].inFlight == 0 ==> NotifierDue(s, x.state))
  }

  predicate InvBut(s: Fences, made: Option<nat>) {
    && (forall name :: name in s.names ==> s.names[name] < |s.states|)
    && (forall a, b :: a in s.names && b in s.names && s.names[a] == s.names[b] ==> a == b)
    && (forall id :: 0 <= id < |s.states| ==> StateOk(s, id, made))
    && (forall g :: 0 <= g < |s.guards| ==> s.guards[g].state < |s.states|)
    && (forall g :: 0 <= g < |s.guards| && s.guards[g].phase == Live ==>
          s.guards[g].name in s.names && s.names[s.guards[g].name] == s.guards[g].state)
    && (forall w :: 0 <= w < |s.waiters| ==> WaiterOk(s, w))
    && s.active == |FencedNames(s)|
  }

  predicate Inv(s: Fences) {
    InvBut(s, None)
  }

  lemma {:induction false} GuardsUpdate(guards: seq<Guard>, g: nat, x: Guard, id: nat)
    requires g < |guards|
    ensures Guards(guards[g := x], id) + (if guards[g].state == id && guards[g].phase == Live then 1 else 0)
         == Guards(guards, id) + (if x.state == id && x.phase == Live then 1 else 0)
  {
    var n := |guards| - 1;
    if g == n {
      assert guards[g := x][..n] == guards[..n];
    } else {
      GuardsUpdate(guards[..n], g, x, id);
      assert guards[g := x][..n] == guards[..n][g := x];
    }
  }

  lemma {:induction false} NoGuards(guards: seq<Guard>, id: nat)
    ensures Guards(guards, id) > 0 <==>
            exists g :: 0 <= g < |guards| && guards[g].state == id && guards[g].phase == Live
  {
    if guards != [] {
      var rest := guards[..|guards| - 1];
      NoGuards(rest, id);
      if g :| 0 <= g < |guards| && guards[g].state == id && guards[g].phase == Live {
        assert g < |rest| ==> rest[g].state == id && rest[g].phase == Live;
      }
      if h :| 0 <= h < |rest| && rest[h].state == id && rest[h].phase == Live {
        assert guards[h].state == id && guards[h].phase == Live;
      }
    }
  }

  lemma EnsureInv(s: Fences, name: string)
    requires Inv(s)
    ensures var t := Ensure(s, name); name in t.names && InvBut(t, Some(t.names[name]))
    ensures StateOf(Ensure(s, name), name) == Some(Ensure(s, name).names[name])
  {
    hide Guards, NotifierDue, Mapped, FencedNames;
    var t := Ensure(s, name);
    var made := t.names[name];
    EnsureFenced(s, name);
    NameMapped(t, name);
    forall id | 0 <= id < |t.states|
      ensures StateOk(t, id, Some(made))
    {
      EnsureMapped(s, name, id);
      if id < |s.states| {
        assert StateOk(s, id, None);
      } else {
        NoGuards(s.guards, id);
      }
    }
    forall w | 0 <= w < |t.waiters|
      ensures WaiterOk(t, w)
    {
      assert WaiterOk(s, w);
      DueFrame(s, t, s.waiters[w].state);
    }
  }

  lemma NameMapped(s: Fences, name: string)
    requires name in s.names
    ensures Mapped(s, s.names[name])
  {
  }

  lemma EnsureMapped(s: Fences, name: string, id: nat)
    ensures Mapped(Ensure(s, name), id) <==> Mapped(s, id) || (name !in s.names && id == |s.states|)
  {
    var t := Ensure(s, name);
    if n :| n in s.names && s.names[n] == id {
      assert n in t.names && t.names[n] == id;
    }
    if name !in s.names && id == |s.states| {
      assert t.names[name] == id;
    }
  }

  lemma EnsureFenced(s: Fences, name: string)
    requires forall n :: n in s.names ==> s.names[n] < |s.states|
    ensures FencedNames(Ensure(s, name)) == FencedNames(s)
  {
  }

  lemma DueFrame(s: Fences, t: Fences, id: nat)
    requires t.guards == s.guards
    ensures NotifierDue(t, id) <==> NotifierDue(s, id)
  {
  }

  /** Flags change on a mapped state: fencing or blocking. */
  lemma MarkInv(s: Fences, name: string, d: DrainState, active: int)
    requires name in s.names && InvBut(s, Some(s.names[name])) && s.names[name] < |s.states|
    requires var old_ := s.states[s.names[name]]; d == old_.(fenced := d.fenced, blocked := d.blocked)
    requires d.fenced || d.blocked
    requires d.fenced == s.states[s.names[name]].fenced || (d.fenced && !s.states[s.names[name]].fenced)
    requires active == s.active + (if d.fenced && !s.states[s.names[name]].fenced then 1 else 0)
    ensures Inv(SetState(s, s.names[name], d).(active := active))
  {
    hide Guards, NotifierDue, FencedNames, Mapped;
    var id := s.names[name];
    var t := SetState(s, id, d).(active := active);
    MarkedNames(s, name, d);
    NameMapped(t, name);
    forall k | 0 <= k < |t.states|
      ensures StateOk(t, k, None)
    {
      assert StateOk(s, k, Some(id));
      MappedFrame(s, t, k);
    }
    forall w | 0 <= w < |t.waiters|
      ensures WaiterOk(t, w)
    {
      assert WaiterOk(s, w);
      DueFrame(s, t, s.waiters[w].state);
    }
    SameNames(SetState(s, id, d), t);
  }

  lemma SameNames(s: Fences, t: Fences)
    requires t.names == s.names && t.states == s.states
    ensures FencedNames(t) == FencedNames(s)
  {
  }

  lemma MarkedNames(s: Fences, name: string, d: DrainState)
    requires name in s.names && s.names[name] < |s.states|
    requires forall n :: n in s.names ==> s.names[n] < |s.states|
    requires forall a, b :: a in s.names && b in s.names && s.names[a] == s.names[b] ==> a == b
    requires d.fenced || !s.states[s.names[name]].fenced
    ensures |FencedNames(SetState(s, s.names[name], d))|
         == |FencedNames(s)| + (if d.fenced && !s.states[s.names[name]].fenced then 1 else 0)
  {
    var id := s.names[name];
    var t := SetState(s, id, d);
    forall n
      ensures n in FencedNames(t) <==> n in FencedNames(s) || (n == name && d.fenced)
    {
      assert n in s.names && n != name ==> s.names[n] != id;
    }
    if d.fenced && !s.states[id].fenced {
      assert name !in FencedNames(s) && FencedNames(t) == FencedNames(s) + {name};
    } else {
      assert FencedNames(t) == FencedNames(s);
    }
  }

  lemma MappedFrame(s: Fences, t: Fences, id: nat)
    requires t.names == s.names
    ensures Mapped(t, id) <==> Mapped(s, id)
  {
  }

  lemma AdmitInv(s: Fences, name: string)
    requires name in s.names && InvBut(s, Some(s.names[name])) && s.names[name] < |s.states|
    ensures Inv(Admit(s, name, s.names[name]))
  {
    var id := s.names[name];
    var t := Admit(s, name, id);
    SameFenced(s, t);
    hide FencedNames;
    forall k | 0 <= k < |t.states|
      ensures StateOk(t, k, None)
    {
      assert StateOk(s, k, Some(id));
      assert t.guards[..|s.guards|] == s.guards;
      MappedFrame(s, t, k);
      assert k == id ==> Mapped(t, k) by { assert t.names[name] == id; }
    }
    forall w | 0 <= w < |t.waiters|
      ensures WaiterOk(t, w)
    {
      assert WaiterOk(s, w);
      if NotifierDue(s, s.waiters[w].state) {
        var g :| 0 <= g < |s.guards| && s.guards[g].phase == Notifying && s.guards[g].state == s.waiters[w].state;
        assert t.guards[g] == s.guards[g];
      }
    }
  }

  lemma UnfenceInv(s: Fences, name: string)
    requires Inv(s) && name in s.names
    ensures Inv(Unfence(s, name, s.names[name]))
  {
    hide Guards, Mapped, NotifierDue, FencedNames;
    var id := s.names[name];
    var t := Unfence(s, name, id);
    assert StateOk(s, id, None);
    NoGuards(s.guards, id);
    UnfencedNames(s, name);
    forall k | 0 <= k < |t.states|
      ensures StateOk(t, k, None)
    {
      assert StateOk(s, k, None);
      RemovedMapping(s, t, name, k);
    }
    forall w | 0 <= w < |t.waiters|
      ensures WaiterOk(t, w)
    {
      assert WaiterOk(s, w);
      DueFrame(s, t, s.waiters[w].state);
    }
  }

  lemma UnfencedNames(s: Fences, name: string)
    requires Inv(s) && name in s.names
    ensures Unfence(s, name, s.names[name]).active == |FencedNames(Unfence(s, name, s.names[name]))|
  {
    hide StateOk, WaiterOk;
    var id := s.names[name];
    var t := Unfence(s, name, id);
    forall n
      ensures n in FencedNames(t) <==> n in FencedNames(s) && n != name
    {
      assert n in s.names && n != name ==> s.names[n] != id;
    }
    if s.states[id].fenced {
      assert name in FencedNames(s) && FencedNames(t) == FencedNames(s) - {name};
    } else {
      assert name !in FencedNames(s) && FencedNames(t) == FencedNames(s);
    }
  }

  /** Taking a name out of an injective map unmaps its own state and no other. */
  lemma RemovedMapping(s: Fences, t: Fences, name: string, k: nat)
    requires name in s.names && (t.names == s.names || t.names == s.names - {name})
    requires forall a, b :: a in s.names && b in s.names && s.names[a] == s.names[b] ==> a == b
    ensures Mapped(t, k) <==> Mapped(s, k) && (t.names == s.names || k != s.names[name])
  {
    if n :| n in s.names && s.names[n] == k {
      assert t.names == s.names || k != s.names[name] ==> n in t.names && t.names[n] == k;
    }
  }

  lemma LeftInv(s: Fences, g: nat)
    requires Inv(s) && g < |s.guards| && s.guards[g].phase == Live
    requires s.guards[g].state < |s.states| && s.states[s.guards[g].state].inFlight > 0
    ensures Inv(Left(s, g))
  {
    hide Guards, Mapped, NotifierDue;
    var id, name, t := s.guards[g].state, s.guards[g].name, Left(s, g);
    assert StateOk(s, id, None);
    assert FencedNames(t) == FencedNames(s);
    hide FencedNames;
    LeftGuards(s, g);
    forall k | 0 <= k < |t.states|
      ensures StateOk(t, k, None)
    {
      assert StateOk(s, k, None);
      GuardsUpdate(s.guards, g, t.guards[g], k);
      RemovedMapping(s, t, name, k);
    }
    forall w | 0 <= w < |t.waiters|
      ensures WaiterOk(t, w)
    {
      assert WaiterOk(s, w);
      LeftDue(s, g, s.waiters[w].state);
    }
  }

  lemma LeftGuards(s: Fences, g: nat)
    requires Inv(s) && g < |s.guards| && s.guards[g].phase == Live
    requires s.guards[g].state < |s.states| && s.states[s.guards[g].state].inFlight > 0
    ensures var t := Left(s, g);
            forall h :: 0 <= h < |t.guards| && t.guards[h].phase == Live ==>
              t.guards[h].name in t.names && t.names[t.guards[h].name] == t.guards[h].state
  {
    var id, t := s.guards[g].state, Left(s, g);
    assert StateOk(s, id, None);
    GuardsUpdate(s.guards, g, t.guards[g], id);
    NoGuards(t.guards, id);
  }

  /** The guard that takes the count to zero owes a notification, and the debts of others stand. */
  lemma LeftDue(s: Fences, g: nat, id: nat)
    requires g < |s.guards| && s.guards[g].phase == Live
    requires s.guards[g].state < |s.states| && s.states[s.guards[g].state].inFlight > 0
    ensures NotifierDue(s, id) ==> NotifierDue(Left(s, g), id)
    ensures s.guards[g].state == id && s.states[id].inFlight == 1 ==> NotifierDue(Left(s, g), id)
  {
    var t := Left(s, g);
    if h :| 0 <= h < |s.guards| && s.guards[h].phase == Notifying && s.guards[h].state == id {
      assert t.guards[h] == s.guards[h];
    }
    if s.guards[g].state == id && s.states[id].inFlight == 1 {
      assert t.guards[g].phase == Notifying;
    }
  }

  /** Nobody can be between check and sleep while the notifier holds the lock, so it reaches every sleeper. */
  lemma NotifyInv(s: Fences, g: nat)
    requires Inv(s) && g < |s.guards| && s.guards[g].phase == Notifying && Free(s, s.guards[g].state)
    ensures Inv(Step(s, Notify(g)))
  {
    var id, t := s.guards[g].state, Step(s, Notify(g));
    assert FencedNames(t) == FencedNames(s);
    forall k | 0 <= k < |t.states|
      ensures StateOk(t, k, None)
    {
      assert StateOk(s, k, None);
      GuardsUpdate(s.guards, g, t.guards[g], k);
      MappedFrame(s, t, k);
    }
    forall w | 0 <= w < |t.waiters|
      ensures WaiterOk(t, w)
    {
      assert WaiterOk(s, w);
      var k := s.waiters[w].state;
      if k != id && NotifierDue(s, k) {
        var h :| 0 <= h < |s.guards| && s.guards[h].phase == Notifying && s.guards[h].state == k;
        assert t.guards[h] == s.guards[h];
      }
    }
  }

  lemma SameFenced(s: Fences, t: Fences)
    requires t.names == s.names && |t.states| == |s.states|
    requires forall k :: 0 <= k < |s.states| ==> t.states[k].fenced == s.states[k].fenced
    ensures FencedNames(t) == FencedNames(s)
  {
  }

  lemma WaiterStates(s: Fences, e: Event)
    requires Inv(s) && (e.Wait? || e.Check? || e.Sleep? || e.SpuriousWake? || e.TimeOut?)
    ensures var t := Step(s, e);
            && t.names == s.names && t.guards == s.guards && t.active == s.active && |t.states| == |s.states|
            && (forall k :: 0 <= k < |s.states| ==> t.states[k] == s.states[k].(mutex := t.states[k].mutex))
            && forall k :: 0 <= k < |t.states| ==> StateOk(t, k, None)
  {
    hide Guards, Mapped, NotifierDue, FencedNames;
    var t := Step(s, e);
    if !e.Wait? && e.waiter < |s.waiters| {
      assert WaiterOk(s, e.waiter);
    }
    forall k | 0 <= k < |t.states|
      ensures StateOk(t, k, None)
    {
      assert StateOk(s, k, None);
      MappedFrame(s, t, k);
    }
  }

  lemma WaiterWaiters(s: Fences, e: Event)
    requires Inv(s) && (e.Wait? || e.Check? || e.Sleep? || e.SpuriousWake? || e.TimeOut?)
    ensures forall w :: 0 <= w < |Step(s, e).waiters| ==> WaiterOk(Step(s, e), w)
  {
    hide Guards, Mapped, NotifierDue, FencedNames;
    var t := Step(s, e);
    if !e.Wait? && e.waiter < |s.waiters| {
      assert WaiterOk(s, e.waiter);
    }
    forall w | 0 <= w < |t.waiters|
      ensures WaiterOk(t, w)
    {
      if w < |s.waiters| {
        assert WaiterOk(s, w);
        DueFrame(s, t, s.waiters[w].state);
      }
    }
  }

  lemma WaiterInv(s: Fences, e: Event)
    requires Inv(s) && (e.Wait? || e.Check? || e.Sleep? || e.SpuriousWake? || e.TimeOut?)
    ensures Inv(Step(s, e))
  {
    hide Step, StateOk, WaiterOk, FencedNames;
    WaiterStates(s, e);
    WaiterWaiters(s, e);
    SameFenced(s, Step(s, e));
  }

  lemma FenceInv(s: Fences, name: string)
    requires name in s.names && InvBut(s, Some(s.names[name])) && s.names[name] < |s.states|
    ensures Inv(Fence(s, s.names[name]))
  {
    hide InvBut;
    var id := s.names[name];
    MarkInv(s, name, s.states[id].(fenced := true), if s.states[id].fenced then s.active else s.active + 1);
  }

  lemma BlockInv(s: Fences, name: string)
    requires name in s.names && InvBut(s, Some(s.names[name])) && s.names[name] < |s.states|
    ensures Inv(SetState(s, s.names[name], s.states[s.names[name]].(blocked := true)))
  {
    hide InvBut;
    MarkInv(s, name, s.states[s.names[name]].(blocked := true), s.active);
  }

  lemma StepInv(s: Fences, e: Event)
    requires Inv(s)
    ensures Inv(Step(s, e))
  {
    hide Inv, InvBut, Admit, Unfence, Left;
    match e
    case BeginDrain(name) =>
      EnsureInv(s, name);
      FenceInv(Ensure(s, name), name);
    case EndDrain(name) =>
      if StateOf(s, name).Some? {
        UnfenceInv(s, name);
      }
    case Block(name) =>
      EnsureInv(s, name);
      BlockInv(Ensure(s, name), name);
    case Enter(name) =>
      EnsureInv(s, name);
      AdmitInv(Ensure(s, name), name);
    case Leave(g) =>
      if g < |s.guards| && s.guards[g].phase == Live && s.guards[g].state < |s.states|
         && s.states[s.guards[g].state].inFlight > 0
      {
        LeftInv(s, g);
      }
    case Notify(g) =>
      if g < |s.guards| && s.guards[g].phase == Notifying && Free(s, s.guards[g].state) {
        NotifyInv(s, g);
      }
    case _ => WaiterInv(s, e);
  }

  lemma {:induction false} RunInv(es: seq<Event>, i: nat)
    requires i <= |es|
    ensures Inv(After(es, i))
  {
    hide Step;
    if i > 0 {
      RunInv(es, i - 1);
      StepInv(After(es, i - 1), es[i - 1]);
    }
  }

  // ----- whole runs -----

  /** In every interleaving: the count of a state is the number of live guards on it, a live guard's state is the one
      mapped for its name, a state is in the map exactly while it is in use, fenced or blocked, and the active count is
      the number of fenced names. */
  lemma CountsAreTrue(es: seq<Event>, i: nat)
    requires i <= |es|
    ensures var s := After(es, i);
            && s.active == |FencedNames(s)|
            && (forall id :: 0 <= id < |s.states| ==>
                  && s.states[id].inFlight == Guards(s.guards, id)
                  && (Mapped(s, id) <==> s.states[id].inFlight > 0 || s.states[id].fenced || s.states[id].blocked))
            && (forall g :: 0 <= g < |s.guards| && s.guards[g].phase == Live ==>
                  s.guards[g].name in s.names && s.names[s.guards[g].name] == s.guards[g].state)
  {
    RunInv(es, i);
    var s := After(es, i);
    forall id | 0 <= id < |s.states|
      ensures s.states[id].inFlight == Guards(s.guards, id)
      ensures Mapped(s, id) <==> s.states[id].inFlight > 0 || s.states[id].fenced || s.states[id].blocked
    {
      assert StateOk(s, id, None);
    }
  }

  /** In every interleaving no waiter sleeps on a zero count unless a guard still has to notify it, and that guard's
      notification, which needs only the state's lock to be free, wakes it. */
  lemma NoLostWakeUp(es: seq<Event>, i: nat, w: nat)
    requires i <= |es| && w < |After(es, i).waiters| && After(es, i).waiters[w].phase == Asleep
    ensures var s := After(es, i);
            var id := s.waiters[w].state;
            && id < |s.states|
            && (s.states[id].inFlight == 0 ==>
                  exists g :: 0 <= g < |s.guards| && s.guards[g].phase == Notifying && s.guards[g].state == id
                              && (Free(s, id) ==> Step(s, Notify(g)).waiters[w].phase == Awake))
  {
    hide Guards, FencedNames, Mapped;
    RunInv(es, i);
    var s := After(es, i);
    assert WaiterOk(s, w);
    var id := s.waiters[w].state;
    if s.states[id].inFlight == 0 {
      var g :| 0 <= g < |s.guards| && s.guards[g].phase == Notifying && s.guards[g].state == id;
      assert Free(s, id) ==> Step(s, Notify(g)).waiters[w].phase == Awake;
    }
  }

  /** The name is fenced on this state, with no more than `most` calls in flight. */
  predicate Draining(s: Fences, name: string, id: nat, most: nat) {
    name in s.names && s.names[name] == id < |s.states| && s.states[id].fenced && s.states[id].inFlight <= most
  }

  /** A fenced name with nothing in flight. */
  predicate Quiet(s: Fences, name: string) {
    name in s.names && Draining(s, name, s.names[name], 0)
  }

  lemma DrainingStep(s: Fences, e: Event, name: string, id: nat, most: nat)
    requires Inv(s) && Draining(s, name, id, most) && e != EndDrain(name)
    ensures Draining(Step(s, e), name, id, most)
  {
    hide Inv, Ensure, Unfence, Left, SetState, Fence, Admit;
    match e
    case BeginDrain(n) =>
      EnsureKeeps(s, n, name, id, most);
      DrainingMark(Ensure(s, n), n, name, id, most);
    case Block(n) =>
      EnsureKeeps(s, n, name, id, most);
      DrainingMark(Ensure(s, n), n, name, id, most);
    case Enter(n) =>
      EnsureKeeps(s, n, name, id, most);
      DrainingMark(Ensure(s, n), n, name, id, most);
    case EndDrain(n) =>
      if StateOf(s, n).Some? {
        OtherName(s, n, name, id, most);
      }
    case Leave(g) =>
      if g < |s.guards| && s.guards[g].phase == Live && s.guards[g].state < |s.states|
         && s.states[s.guards[g].state].inFlight > 0
      {
        DrainingLeft(s, g, name, id, most);
      }
    case Notify(_) =>
    case _ => WaiterStates(s, e);
  }

  lemma DrainingMark(s: Fences, n: string, name: string, id: nat, most: nat)
    requires Draining(s, name, id, most) && n in s.names && s.names[n] < |s.states| && (n != name ==> s.names[n] != id)
    ensures var k := s.names[n];
            && Draining(Fence(s, k), name, id, most) && Draining(Admit(s, n, k), name, id, most)
            && Draining(SetState(s, k, s.states[k].(blocked := true)), name, id, most)
  {
  }

  lemma OtherName(s: Fences, n: string, name: string, id: nat, most: nat)
    requires Inv(s) && Draining(s, name, id, most) && n != name && n in s.names
    ensures s.names[n] < |s.states| && Draining(Unfence(s, n, s.names[n]), name, id, most)
  {
    hide StateOk, WaiterOk, FencedNames;
  }

  lemma DrainingLeft(s: Fences, g: nat, name: string, id: nat, most: nat)
    requires Draining(s, name, id, most) && g < |s.guards| && s.guards[g].phase == Live
    requires s.guards[g].state < |s.states| && s.states[s.guards[g].state].inFlight > 0
    ensures Draining(Left(s, g), name, id, most)
  {
  }

  lemma EnsureKeeps(s: Fences, n: string, name: string, id: nat, most: nat)
    requires Inv(s) && Draining(s, name, id, most)
    ensures var t := Ensure(s, n);
            && Draining(t, name, id, most) && StateOf(t, n).Some?
            && n in t.names && t.names[n] < |t.states| && (n != name ==> t.names[n] != id)
  {
    hide StateOk, WaiterOk, FencedNames;
  }

  /** No step changes who a guard is for or lets a refused one in, and a guard made for a fenced name is refused. */
  lemma GuardsStep(s: Fences, e: Event, name: string, id: nat, most: nat)
    requires Inv(s) && Draining(s, name, id, most)
    ensures var t := Step(s, e);
            && |s.guards| <= |t.guards|
            && (forall g :: 0 <= g < |s.guards| ==>
                  t.guards[g].name == s.guards[g].name
                      && (s.guards[g].phase == Refused ==> t.guards[g].phase == Refused))
            && (forall g :: |s.guards| <= g < |t.guards| && t.guards[g].name == name ==> t.guards[g].phase == Refused)
  {
    hide InvBut;
  }

  /** From any moment of a drain until its fence is lifted, in every interleaving: the name stays on the same state, its
      count of calls in flight never rises, and every call that tries to enter meanwhile is refused. */
  lemma {:induction false} DrainOnlyFalls(es: seq<Event>, i: nat, j: nat, name: string, id: nat, most: nat)
    requires i <= j <= |es| && Draining(After(es, i), name, id, most)
    requires forall k :: i <= k < j ==> es[k] != EndDrain(name)
    ensures Draining(After(es, j), name, id, most)
    ensures var s, t := After(es, i), After(es, j);
            && |s.guards| <= |t.guards|
            && (forall g :: |s.guards| <= g < |t.guards| && t.guards[g].name == name ==> t.guards[g].phase == Refused)
    decreases j
  {
    hide Step, Inv, Draining;
    if i < j {
      DrainOnlyFalls(es, i, j - 1, name, id, most);
      RunInv(es, j - 1);
      DrainingStep(After(es, j - 1), es[j - 1], name, id, most);
      GuardsStep(After(es, j - 1), es[j - 1], name, id, most);
    }
  }

  lemma BeginDrains(s: Fences, name: string)
    requires Inv(s)
    ensures var t := Step(s, BeginDrain(name));
            && name in t.names && t.names[name] < |t.states|
            && Draining(t, name, t.names[name], t.states[t.names[name]].inFlight)
            && t.guards == s.guards && t.waiters == s.waiters
  {
    hide StateOk, WaiterOk, FencedNames;
  }

  /** Calls that start after `begin_drain` are not admitted, in every interleaving until `end_drain`, whatever was still
      in flight. */
  lemma RefusedWhileFenced(es: seq<Event>, i: nat, j: nat, name: string)
    requires i < j <= |es| && es[i] == BeginDrain(name) && forall k :: i < k < j ==> es[k] != EndDrain(name)
    ensures var s, t := After(es, i), After(es, j);
            forall g :: |s.guards| <= g < |t.guards| && t.guards[g].name == name ==> t.guards[g].phase == Refused
  {
    hide Step, Inv;
    RunInv(es, i);
    BeginDrains(After(es, i), name);
    var t := After(es, i + 1);
    DrainOnlyFalls(es, i + 1, j, name, t.names[name], t.states[t.names[name]].inFlight);
  }

  /** Once a drained extension is fenced with nothing in flight, it stays so until its fence is lifted: in every
      interleaving no call of it is live meanwhile, however many try to enter. */
  lemma QuietUntilEnd(es: seq<Event>, i: nat, j: nat, name: string)
    requires i <= j <= |es| && Quiet(After(es, i), name)
    requires forall k :: i <= k < j ==> es[k] != EndDrain(name)
    ensures Quiet(After(es, j), name)
    ensures forall g :: 0 <= g < |After(es, j).guards| && After(es, j).guards[g].name == name ==>
              After(es, j).guards[g].phase != Live
  {
    hide Step, Inv;
    RunInv(es, j);
    DrainOnlyFalls(es, i, j, name, After(es, i).names[name], 0);
    QuietGuards(After(es, j), name);
  }

  lemma QuietGuards(s: Fences, name: string)
    requires Inv(s) && Quiet(s, name)
    ensures forall g :: 0 <= g < |s.guards| && s.guards[g].name == name ==> s.guards[g].phase != Live
  {
    assert StateOk(s, s.names[name], None);
    NoGuards(s.guards, s.names[name]);
  }

  /** What one step does to a waiter: it stays on its state, and it returns true only at a zero count. */
  lemma WaiterStep(s: Fences, e: Event, w: nat)
    requires Inv(s) && w < |s.waiters|
    ensures var t := Step(s, e);
            && w < |t.waiters| && t.waiters[w].state == s.waiters[w].state < |s.states|
            && (t.waiters[w].phase == Returned(true) && s.waiters[w].phase != Returned(true) ==>
                  s.states[s.waiters[w].state].inFlight == 0)
  {
    hide StateOk, FencedNames, Guards, Mapped, NotifierDue;
    assert WaiterOk(s, w);
  }

  lemma QuietHere(s: Fences, name: string, id: nat, w: nat)
    requires w < |s.waiters| && name in s.names && s.names[name] == id < |s.states| && s.states[id].fenced
    requires s.waiters[w].phase == Returned(true) ==> Quiet(s, name)
    requires s.waiters[w].phase != Returned(true) ==> s.states[id].inFlight == 0
    ensures Quiet(s, name)
  {
  }

  lemma WaitBegins(s: Fences, id: nat)
    requires id < |s.states|
    ensures Step(s, Wait(id)).waiters == s.waiters + [Waiter(id, Awake)]
  {
  }

  /** The waiter is on the state that `begin_drain` fenced, and the name still is too. */
  lemma {:induction false} WaiterKeepsState(es: seq<Event>, i: nat, k: nat, j: nat, name: string)
    requires i < k < j <= |es| && es[i] == BeginDrain(name) && forall m :: i < m < j ==> es[m] != EndDrain(name)
    requires name in After(es, i + 1).names && es[k] == Wait(After(es, i + 1).names[name])
    ensures var w, t, id := |After(es, k).waiters|, After(es, j), After(es, i + 1).names[name];
            && w < |t.waiters| && t.waiters[w].state == id
            && name in t.names && t.names[name] == id < |t.states| && t.states[id].fenced
            && (j == k + 1 ==> t.waiters[w].phase == Awake)
    decreases j
  {
    hide Inv, Step;
    RunInv(es, i);
    BeginDrains(After(es, i), name);
    var begun := After(es, i + 1);
    var id := begun.names[name];
    DrainOnlyFalls(es, i + 1, j, name, id, begun.states[id].inFlight);
    if j > k + 1 {
      WaiterKeepsState(es, i, k, j - 1, name);
      RunInv(es, j - 1);
      WaiterStep(After(es, j - 1), es[j - 1], |After(es, k).waiters|);
    } else {
      DrainOnlyFalls(es, i + 1, k, name, id, begun.states[id].inFlight);
      WaitBegins(After(es, k), id);
    }
  }

  /** `begin_drain` followed by a `wait_for_zero` on its state that answers true: every call admitted before is over,
      none came in, and it stays so until the fence is lifted. */
  lemma {:induction false} WaitedMeansQuiet(es: seq<Event>, i: nat, k: nat, j: nat, name: string)
    requires i < k < j <= |es| && es[i] == BeginDrain(name) && forall m :: i < m < j ==> es[m] != EndDrain(name)
    requires name in After(es, i + 1).names && es[k] == Wait(After(es, i + 1).names[name])
    ensures var w := |After(es, k).waiters|;
            w < |After(es, j).waiters|
                && (After(es, j).waiters[w].phase == Returned(true) ==> Quiet(After(es, j), name))
    decreases j
  {
    hide Step, Inv, Draining;
    var id, w := After(es, i + 1).names[name], |After(es, k).waiters|;
    WaiterKeepsState(es, i, k, j, name);
    if j > k + 1 {
      WaitedMeansQuiet(es, i, k, j - 1, name);
      var s, t := After(es, j - 1), After(es, j);
      RunInv(es, j - 1);
      WaiterKeepsState(es, i, k, j - 1, name);
      WaiterStep(s, es[j - 1], w);
      if t.waiters[w].phase == Returned(true) {
        assert Quiet(s, name) by { QuietHere(s, name, id, w); }
        QuietUntilEnd(es, j - 1, j, name);
      }
    }
  }

  // ----- the process-wide registry as an object -----

  lemma NamesInRange(s: Fences)
    requires Inv(s)
    ensures forall n :: n in s.names ==> s.names[n] < |s.states|
  {
  }

  lemma GuardCounted(s: Fences, g: nat)
    requires Inv(s) && g < |s.guards| && s.guards[g].phase == Live
    ensures s.guards[g].state < |s.states| && s.states[s.guards[g].state].inFlight > 0
  {
    assert StateOk(s, s.guards[g].state, None);
    NoGuards(s.guards, s.guards[g].state);
  }

  class Registry {
    var names: map<string, nat>
    var states: seq<DrainState>
    var active: int
    var guards: seq<Guard>
    var waiters: seq<Waiter>

    function View(): Fences
      reads this
    {
      Fences(names, states, active, guards, waiters)
    }

    constructor ()
      ensures View() == EMPTY && Inv(View())
    {
      names, states, active, guards, waiters := map[], [], 0, [], [];
    }

    method FindOrMake(name: string) returns (id: nat)
      requires forall n :: n in names ==> names[n] < |states|
      modifies this`names, this`states
      ensures View() == Ensure(old(View()), name) && name in names && id == names[name] < |states|
    {
      if name !in names {
        names := names[name := |states|];
        states := states + [NEW_STATE];
      }
      id := names[name];
    }

    method Begin(name: string) returns (id: nat)
      requires Inv(View())
      modifies this
      ensures Inv(View()) && View() == Step(old(View()), BeginDrain(name))
      ensures id < |states| && states[id].fenced && names[name] == id
    {
      hide StateOk, WaiterOk, FencedNames;
      StepInv(View(), BeginDrain(name));
      id := FindOrMake(name);
      if !states[id].fenced {
        active := active + 1;
      }
      states := states[id := states[id].(fenced := true)];
    }

    method End(name: string)
      requires Inv(View())
      modifies this
      ensures Inv(View()) && View() == Step(old(View()), EndDrain(name))
    {
      hide StateOk, WaiterOk, FencedNames;
      StepInv(View(), EndDrain(name));
      if name !in names {
        return;
      }
      var id := names[name];
      if states[id].fenced {
        active := active - 1;
      }
      states := states[id := states[id].(fenced := false, blocked := false)];
      if states[id].inFlight == 0 {
        names := names - {name};
      }
    }

    method EnterGuard(name: string) returns (admitted: bool)
      requires Inv(View())
      modifies this
      ensures Inv(View()) && View() == Step(old(View()), Event.Enter(name))
      ensures admitted <==> old(name !in names || !states[names[name]].fenced)
    {
      hide InvBut;
      NamesInRange(View());
      StepInv(View(), Event.Enter(name));
      var id := FindOrMake(name);
      if states[id].fenced {
        guards := guards + [Guard(name, id, Refused)];
        return false;
      }
      guards := guards + [Guard(name, id, Live)];
      states := states[id := states[id].(inFlight := states[id].inFlight + 1)];
      admitted := true;
    }

    /** The guard's destructor under the global lock; true when it must still notify. */
    method LeaveGuard(g: nat) returns (notify: bool)
      requires Inv(View()) && g < |guards| && guards[g].phase == Live
      modifies this
      ensures Inv(View()) && View() == Step(old(View()), Event.Leave(g))
      ensures notify <==> old(states[guards[g].state].inFlight) == 1
    {
      hide StateOk, WaiterOk, FencedNames;
      GuardCounted(View(), g);
      StepInv(View(), Event.Leave(g));
      var id, name := guards[g].state, guards[g].name;
      var previous := states[id].inFlight;
      states := states[id := states[id].(inFlight := previous - 1)];
      if previous == 1 && !states[id].fenced && !states[id].blocked && name in names && names[name] == id {
        names := names - {name};
      }
      notify := previous == 1;
      guards := guards[g := guards[g].(phase := if notify then Notifying else Gone)];
    }

    /** Wake every sleeper on the state. */
    method NotifyAll(g: nat)
      requires Inv(View()) && g < |guards| && guards[g].phase == Notifying && Free(View(), guards[g].state)
      modifies this
      ensures Inv(View()) && View() == Step(old(View()), Event.Notify(g))
    {
      hide InvBut;
      StepInv(View(), Event.Notify(g));
      var id := guards[g].state;
      var woken: seq<Waiter> := [];
      for w := 0 to |waiters|
        invariant woken == WakeAll(waiters[..w], id)
      {
        assert waiters[..w + 1][..w] == waiters[..w];
        var waiter := waiters[w];
        if waiter.state == id && waiter.phase == Asleep {
          waiter := waiter.(phase := Awake);
        }
        woken := woken + [waiter];
      }
      assert waiters[..|waiters|] == waiters;
      waiters := woken;
      guards := guards[g := guards[g].(phase := Gone)];
    }
  }
}
