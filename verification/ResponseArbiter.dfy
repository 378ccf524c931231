/** The response arbiter (ownership.cpp: ResponseArbiter): one frozen choice, one wire handoff.
    Every public call takes the owner's mutex, so a run is a sequence of whole calls, each with
    the clock reading it took.  Nothing is assumed about the clock: readings may go backwards. */
module ResponseArbiter {
  import opened Wrappers
  import opened Deadlines
  import Context

  datatype CancelReason = CancelDeadline | CancelClientGone | CancelShutdown | CancelGenerationRetired

  datatype ChoiceReason =
    | HandlerResponse | HandlerFailed | ResponseInvalid | AdapterUnavailable | ResourceExhausted
    | Deadline | ClientGone | Shutdown | GenerationRetired

  datatype AdapterFailure =
    | FailureHandlerFailed | FailureResponseInvalid | FailureAdapterUnavailable
    | FailureResourceExhausted | FailureExecutionCancelled

  datatype Disposition = Accepted | Duplicate | Retired

  datatype Wire = NotAttempted | AttemptStarted | WriteCompleted | WriteFailed | Unknown

  datatype Identity = Identity(dispatchId: string, ownerEpoch: string, version: nat, choiceId: string)
  datatype Record = Record(identity: Identity, status: Option<int>, reason: ChoiceReason)

  /** What the caller's transport writer did: returned an observation, or threw. */
  datatype Writer = Reports(wire: Wire) | Throws

  datatype State = State(
    identity: Identity,
    bounds: Bounds,
    frozen: Option<Record>,
    cancelled: Option<CancelReason>,
    authorized: bool,
    ownerLive: bool,
    durable: bool,
    handed: bool,
    closed: bool,
    wire: Wire)

  datatype Event =
    | Authorize(now: U64)
    | Respond(now: U64, status: int)
    | Fail(now: U64, failure: AdapterFailure)
    | Cancel(now: U64, cancel: CancelReason)
    | Expire(now: U64)
    | Confirm(now: U64, acknowledged: Record)
    | Dispatch(now: U64, writer: Option<Writer>)
    | Observe(record: Record, observation: Wire)

  /** The value a call returns; `Ran` says whether dispatch_wire invoked the writer. */
  datatype Output = Flag(ok: bool) | Verdict(disposition: Disposition) | Nothing | Ran(ran: bool)

  function Init(identity: Identity, bounds: Bounds): State {
    State(identity, bounds, None, None, false, true, false, false, false, NotAttempted)
  }

  function Freeze(s: State, status: Option<int>, reason: ChoiceReason): State {
    if s.frozen.None? && s.authorized then s.(frozen := Some(Record(s.identity, status, reason))) else s
  }

  function CloseWire(s: State): State {
    if s.handed && s.wire != WriteCompleted && s.wire != WriteFailed
    then s.(closed := true, wire := Unknown) else s.(closed := true)
  }

  function PassCutoff(s: State): State {
    Freeze(if s.cancelled.None? then s.(cancelled := Some(CancelDeadline)) else s, Some(504), Deadline)
  }

  function PassExpiry(s: State): State {
    var c := CloseWire(s);
    if c.handed then c else c.(wire := Unknown)
  }

  function Update(s: State, now: U64): State {
    if now < s.bounds.admitted then CloseWire(s.(ownerLive := false))
    else
      var cut := if now >= s.bounds.cutoff then PassCutoff(s) else s;
      if now >= s.bounds.wire then PassExpiry(cut) else cut
  }

  function CancelStatus(reason: CancelReason): Option<int> {
    match reason
    case CancelDeadline => Some(504)
    case CancelClientGone => None
    case CancelShutdown => Some(503)
    case CancelGenerationRetired => Some(503)
  }

  function CancelChoice(reason: CancelReason): ChoiceReason {
    match reason
    case CancelDeadline => Deadline
    case CancelClientGone => ClientGone
    case CancelShutdown => Shutdown
    case CancelGenerationRetired => GenerationRetired
  }

  function FailureStatus(f: AdapterFailure): int {
    if f == FailureAdapterUnavailable then 503 else 500
  }

  function FailureChoice(f: AdapterFailure): ChoiceReason {
    match f
    case FailureHandlerFailed => HandlerFailed
    case FailureResponseInvalid => ResponseInvalid
    case FailureExecutionCancelled => ResponseInvalid
    case FailureAdapterUnavailable => AdapterUnavailable
    case FailureResourceExhausted => ResourceExhausted
  }

  predicate StatusInRange(status: int) {
    200 <= status <= 599
  }

  /** submit_response and submit_failure differ only in what they would freeze. */
  function Submit(s: State, now: U64, status: int, reason: ChoiceReason): (State, Output) {
    var u := Update(s, now);
    if s.frozen.Some? then (u, Verdict(Duplicate))
    else if !u.authorized || !u.ownerLive || u.frozen.Some? then (u, Verdict(Retired))
    else (Freeze(u, Some(status), reason), Verdict(Accepted))
  }

  function CancelBy(s: State, reason: CancelReason): State {
    var f := if s.cancelled.None?
             then Freeze(s.(cancelled := Some(reason)), CancelStatus(reason), CancelChoice(reason)) else s;
    if reason == CancelDeadline then f
    else if reason == CancelClientGone then CloseWire(f)
    else CloseWire(f).(ownerLive := false)
  }

  function Handoff(s: State, writer: Writer): State {
    s.(handed := true, closed := true,
       wire := if writer.Reports? && (writer.wire == NotAttempted || writer.wire == AttemptStarted)
               then writer.wire else Unknown)
  }

  predicate MayHandOff(s: State) {
    && s.ownerLive && !s.closed && !s.handed && s.durable
    && s.frozen.Some? && s.frozen.value.status.Some?
  }

  predicate MayObserve(s: State, record: Record, observation: Wire) {
    && s.ownerLive && s.handed && s.frozen == Some(record)
    && (s.wire == AttemptStarted || s.wire == Unknown)
    && (observation == WriteCompleted || observation == WriteFailed)
  }

  function Step(s: State, e: Event): (State, Output) {
    match e
    case Authorize(now) =>
      var u := Update(s, now);
      if u.authorized || !u.ownerLive || u.cancelled.Some? || u.closed then (u, Flag(false))
      else (u.(authorized := true), Flag(true))
    case Respond(now, status) =>
      if StatusInRange(status) then Submit(s, now, status, HandlerResponse)
      else Submit(s, now, 500, ResponseInvalid)
    case Fail(now, f) => Submit(s, now, FailureStatus(f), FailureChoice(f))
    case Cancel(now, reason) => (CancelBy(Update(s, now), reason), Nothing)
    case Expire(now) => (Update(s, now), Nothing)
    case Confirm(now, record) =>
      var u := Update(s, now);
      if u.ownerLive && u.frozen == Some(record) then (u.(durable := true), Flag(true))
      else (u, Flag(false))
    case Dispatch(now, writer) =>
      var u := Update(s, now);
      if writer.Some? && MayHandOff(u) then (Handoff(u, writer.value), Ran(true)) else (u, Ran(false))
    case Observe(record, observation) =>
      if MayObserve(s, record, observation) then (s.(wire := observation), Flag(true))
      else (s, Flag(false))
  }

  predicate Clocked(e: Event) {
    !e.Observe?
  }

  // ----- runs -----

  /** The state after the first `i` calls. */
  function At(s: State, es: seq<Event>, i: nat): State
    requires i <= |es|
  {
    if i == 0 then s else Step(At(s, es, i - 1), es[i - 1]).0
  }

  function Returned(s: State, es: seq<Event>, i: nat): Output
    requires i < |es|
  {
    Step(At(s, es, i), es[i]).1
  }

  /** How far a wire observation has progressed. */
  function Rank(w: Wire): nat {
    match w
    case NotAttempted => 0
    case AttemptStarted => 1
    case Unknown => 2
    case WriteCompleted => 3
    case WriteFailed => 3
  }

  /** What no later call can undo. */
  predicate Later(s: State, t: State) {
    && t.identity == s.identity && t.bounds == s.bounds
    && (s.frozen.Some? ==> t.frozen == s.frozen)
    && (s.cancelled.Some? ==> t.cancelled == s.cancelled)
    && (s.authorized ==> t.authorized)
    && (!s.authorized && s.cancelled.Some? ==> !t.authorized)
    && (!s.ownerLive ==> !t.ownerLive)
    && (s.durable ==> t.durable) && (s.handed ==> t.handed) && (s.closed ==> t.closed)
    && Rank(s.wire) <= Rank(t.wire)
    && (Rank(s.wire) == 3 ==> t.wire == s.wire)
  }

  predicate Inv(s: State) {
    && (s.frozen.Some? ==> s.authorized && s.frozen.value.identity == s.identity)
    && (s.authorized && s.cancelled.Some? ==> s.frozen.Some?)
    && (s.durable ==> s.frozen.Some?)
    && (s.handed ==> s.closed && s.durable && s.frozen.value.status.Some?)
    && (!s.handed ==> s.wire == NotAttempted || (s.wire == Unknown && s.closed))
    && (s.frozen.Some? && s.frozen.value.status.Some? ==> StatusInRange(s.frozen.value.status.value))
    && (!s.ownerLive ==> s.closed)
  }

  lemma LaterTransitive(s: State, t: State, u: State)
    requires Later(s, t) && Later(t, u)
    ensures Later(s, u)
  {
  }

  lemma CutoffLater(s: State)
    requires Inv(s)
    ensures Inv(PassCutoff(s)) && Later(s, PassCutoff(s))
  {
  }

  lemma ExpiryLater(s: State)
    requires Inv(s)
    ensures Inv(PassExpiry(s)) && Later(s, PassExpiry(s))
  {
  }

  lemma UpdateLater(s: State, now: U64)
    requires Inv(s) && ArbiterAccepts(s.bounds)
    ensures Inv(Update(s, now)) && Later(s, Update(s, now))
  {
    hide PassCutoff, PassExpiry;
    if now >= s.bounds.admitted {
      CutoffLater(s);
      var cut := if now >= s.bounds.cutoff then PassCutoff(s) else s;
      ExpiryLater(cut);
      LaterTransitive(s, cut, Update(s, now));
    }
  }

  lemma CancelLater(s: State, reason: CancelReason)
    requires Inv(s)
    ensures Inv(CancelBy(s, reason)) && Later(s, CancelBy(s, reason))
  {
  }

  lemma SubmitLater(s: State, now: U64, status: int, reason: ChoiceReason)
    requires Inv(s) && ArbiterAccepts(s.bounds) && StatusInRange(status)
    ensures Inv(Submit(s, now, status, reason).0) && Later(s, Submit(s, now, status, reason).0)
  {
    hide Update;
    UpdateLater(s, now);
  }

  /** One call keeps the invariant and undoes nothing. */
  lemma StepLater(s: State, e: Event)
    requires Inv(s) && ArbiterAccepts(s.bounds)
    ensures Inv(Step(s, e).0) && Later(s, Step(s, e).0)
  {
    hide Update, Submit, CancelBy;
    if Clocked(e) {
      UpdateLater(s, e.now);
    }
    match e {
      case Respond(now, status) =>
        SubmitLater(s, now, if StatusInRange(status) then status else 500,
                    if StatusInRange(status) then HandlerResponse else ResponseInvalid);
      case Fail(now, f) => SubmitLater(s, now, FailureStatus(f), FailureChoice(f));
      case Cancel(now, reason) =>
        CancelLater(Update(s, now), reason);
        LaterTransitive(s, Update(s, now), Step(s, e).0);
      case _ =>
    }
  }

  lemma {:induction false} RunLater(s: State, es: seq<Event>, i: nat, j: nat)
    requires Inv(s) && ArbiterAccepts(s.bounds) && i <= j <= |es|
    ensures At(s, es, i).bounds == s.bounds && Inv(At(s, es, i)) && Inv(At(s, es, j))
    ensures Later(At(s, es, i), At(s, es, j))
    decreases j
  {
    hide Step, Inv;
    if j > 0 {
      RunLater(s, es, if i < j then i else j - 1, j - 1);
      StepLater(At(s, es, j - 1), es[j - 1]);
    }
    if i < j {
      LaterTransitive(At(s, es, i), At(s, es, j - 1), At(s, es, j));
    }
  }

  /** Over any run: the choice never changes once frozen; an authorized and cancelled owner has a choice; one cancelled
      before authorization never gets one; and the wire observation only climbs, its final values being permanent. */
  lemma RunGuarantees(identity: Identity, b: Bounds, es: seq<Event>, i: nat, j: nat)
    requires ArbiterAccepts(b) && i <= j <= |es|
    ensures var s, t := At(Init(identity, b), es, i), At(Init(identity, b), es, j);
            && (s.frozen.Some? ==> t.frozen == s.frozen)
            && (s.authorized && s.cancelled.Some? ==> s.frozen.Some?)
            && (!s.authorized && s.cancelled.Some? ==> t.frozen.None? && !t.handed)
            && Rank(s.wire) <= Rank(t.wire) && (Rank(s.wire) == 3 ==> t.wire == s.wire)
  {
    hide Step;
    RunLater(Init(identity, b), es, i, j);
  }

  /** A call that returned ACCEPTED found no choice, left one, and read a clock inside the execution window. */
  lemma AcceptanceFreezes(s: State, e: Event)
    requires Inv(s) && ArbiterAccepts(s.bounds) && Step(s, e).1 == Verdict(Accepted)
    ensures s.frozen.None? && Step(s, e).0.frozen.Some?
    ensures s.authorized && s.cancelled.None? && s.ownerLive
    ensures (e.Respond? || e.Fail?) && s.bounds.admitted <= e.now < s.bounds.cutoff
  {
  }

  /** At most one candidate is ever accepted, and only inside [admitted, cutoff). */
  lemma AtMostOneAccepted(identity: Identity, b: Bounds, es: seq<Event>, i: nat, j: nat)
    requires ArbiterAccepts(b) && i <= j < |es|
    requires Returned(Init(identity, b), es, i) == Verdict(Accepted)
    requires Returned(Init(identity, b), es, j) == Verdict(Accepted)
    ensures i == j && b.admitted <= es[i].now < b.cutoff
  {
    hide Step;
    var s := Init(identity, b);
    RunLater(s, es, 0, i);
    RunLater(s, es, i, j);
    AcceptanceFreezes(At(s, es, i), es[i]);
    AcceptanceFreezes(At(s, es, j), es[j]);
    if i < j {
      RunLater(s, es, i + 1, j);
    }
  }

  /** A handoff happened on a durable choice with a status, inside [admitted, wire expiry). */
  lemma HandoffGuard(s: State, e: Event)
    requires Inv(s) && ArbiterAccepts(s.bounds) && Step(s, e).1 == Ran(true)
    ensures s.durable && s.frozen.Some? && s.frozen.value.status.Some? && !s.handed && Step(s, e).0.handed
    ensures e.Dispatch? && s.bounds.admitted <= e.now < s.bounds.wire
  {
  }

  lemma DurableFrom(s: State, e: Event)
    requires Inv(s) && ArbiterAccepts(s.bounds) && !s.durable && Step(s, e).0.durable
    ensures e.Confirm? && Step(s, e).1 == Flag(true) && Step(s, e).0.frozen == Some(e.acknowledged)
  {
    hide Update;
    if Clocked(e) {
      UpdateFlags(s, e.now);
    }
  }

  /** Call `k` was a durable acknowledgement of exactly `choice`, and the owner took it. */
  ghost predicate ConfirmedBy(s: State, es: seq<Event>, k: nat, choice: Option<Record>)
    requires k < |es|
  {
    es[k].Confirm? && choice == Some(es[k].acknowledged) && Returned(s, es, k) == Flag(true)
  }

  lemma {:induction false} DurableWasConfirmed(identity: Identity, b: Bounds, es: seq<Event>, i: nat)
    requires ArbiterAccepts(b) && i <= |es| && At(Init(identity, b), es, i).durable
    ensures exists k: nat :: k < i && ConfirmedBy(Init(identity, b), es, k, At(Init(identity, b), es, i).frozen)
  {
    hide Step;
    var s := Init(identity, b);
    RunLater(s, es, 0, i - 1);
    RunLater(s, es, i - 1, i);
    if At(s, es, i - 1).durable {
      DurableWasConfirmed(identity, b, es, i - 1);
    } else {
      DurableFrom(At(s, es, i - 1), es[i - 1]);
      assert ConfirmedBy(s, es, i - 1, At(s, es, i).frozen);
    }
  }

  /** The wire handoff: at most one writer invocation in a run, before wire expiry, on a choice with a status that an
      earlier call had durably confirmed; and the choice handed over is the one the run ends with. */
  lemma AtMostOneHandoff(identity: Identity, b: Bounds, es: seq<Event>, i: nat, j: nat)
    requires ArbiterAccepts(b) && i <= j < |es|
    requires Returned(Init(identity, b), es, i) == Ran(true)
    requires Returned(Init(identity, b), es, j) == Ran(true)
    ensures i == j && b.admitted <= es[i].now < b.wire
    ensures At(Init(identity, b), es, i).frozen == At(Init(identity, b), es, |es|).frozen
    ensures At(Init(identity, b), es, i).frozen.Some? && At(Init(identity, b), es, i).frozen.value.status.Some?
    ensures exists k: nat :: k < i && ConfirmedBy(Init(identity, b), es, k, At(Init(identity, b), es, i).frozen)
  {
    hide Step;
    var s := Init(identity, b);
    RunLater(s, es, 0, i);
    RunLater(s, es, i, j);
    RunLater(s, es, i, |es|);
    HandoffGuard(At(s, es, i), es[i]);
    HandoffGuard(At(s, es, j), es[j]);
    DurableWasConfirmed(identity, b, es, i);
    if i < j {
      RunLater(s, es, i + 1, j);
    }
  }

  // ----- one call, flag by flag -----

  predicate Fresh(s: State) {
    s.ownerLive && s.cancelled.None? && !s.closed
  }

  /** What reading the clock changes; everything else is kept. */
  lemma UpdateFlags(s: State, now: U64)
    requires Inv(s) && ArbiterAccepts(s.bounds)
    ensures var u, late := Update(s, now), now >= s.bounds.cutoff;
            && u == s.(frozen := u.frozen, cancelled := u.cancelled, ownerLive := u.ownerLive, closed := u.closed,
                       wire := u.wire)
            && (u.ownerLive <==> s.ownerLive && now >= s.bounds.admitted)
            && (Fresh(u) <==> Fresh(s) && now >= s.bounds.admitted && !late)
            && u.frozen == (if s.frozen.None? && s.authorized && late
                            then Some(Record(s.identity, Some(504), Deadline)) else s.frozen)
            && (s.authorized && s.frozen.None? && !late ==> u.cancelled.None?)
  {
  }

  /** What one call does to the authorization, the owner's liveness and the choice. */
  lemma StepFlags(s: State, e: Event)
    requires Inv(s) && ArbiterAccepts(s.bounds)
    ensures var t, early, late := Step(s, e).0, Early(s.bounds, e), Late(s.bounds, e);
            && t.bounds == s.bounds
            && (s.authorized ==> t.authorized) && (s.frozen.Some? ==> t.frozen == s.frozen)
            && (!s.authorized ==> t.frozen.None? && (t.authorized <==> e.Authorize? && Fresh(s) && !early && !late))
            && (!s.authorized && t.authorized ==> t.ownerLive)
            && (!t.authorized ==> (Fresh(t) <==> Fresh(s) && !e.Cancel? && !early && !late))
            && (s.authorized && t.frozen.None? ==> (t.ownerLive <==> s.ownerLive && !early))
            && (s.authorized && s.frozen.None? ==>
                  (t.frozen.Some? <==> late || e.Cancel? || (Candidate(e) && s.ownerLive && !early)))
            && (s.frozen.None? && t.frozen.Some? ==> t.frozen.value == ChoiceOf(s.identity, s.bounds, e))
  {
    hide Update;
    if Clocked(e) {
      UpdateFlags(s, e.now);
    }
  }

  // ----- the choice, read off the history alone -----

  predicate Early(b: Bounds, e: Event) {
    Clocked(e) && e.now < b.admitted
  }

  predicate Late(b: Bounds, e: Event) {
    Clocked(e) && e.now >= b.cutoff
  }

  predicate Candidate(e: Event) {
    e.Respond? || e.Fail?
  }

  /** Call `a` is the one that authorized the dispatch: nothing before it was cancelled, early or late. */
  predicate Authorizes(b: Bounds, es: seq<Event>, a: nat)
    requires a < |es|
  {
    && es[a].Authorize? && !Early(b, es[a]) && !Late(b, es[a])
    && forall j: nat :: j < a ==> !es[j].Authorize? && !es[j].Cancel? && !Early(b, es[j]) && !Late(b, es[j])
  }

  /** Call `k` would settle the choice, going by the history before it: after authorization, any call at or past the
      cutoff, any cancellation, or a candidate inside the window unless an early reading retired the owner. */
  ghost predicate Settles(b: Bounds, es: seq<Event>, k: nat)
    requires k < |es|
  {
    && (exists a: nat :: a < k && Authorizes(b, es, a))
    && (Late(b, es[k]) || es[k].Cancel?
        || (Candidate(es[k]) && forall j: nat :: j <= k ==> !Early(b, es[j])))
  }

  function ChoiceOf(identity: Identity, b: Bounds, e: Event): Record {
    if Late(b, e) then Record(identity, Some(504), Deadline)
    else match e
      case Cancel(_, reason) => Record(identity, CancelStatus(reason), CancelChoice(reason))
      case Respond(_, status) =>
        if StatusInRange(status) then Record(identity, Some(status), HandlerResponse)
        else Record(identity, Some(500), ResponseInvalid)
      case Fail(_, f) => Record(identity, Some(FailureStatus(f)), FailureChoice(f))
      case _ => Record(identity, None, HandlerResponse)
  }

  /** The machine's flags, as facts about the history. */
  ghost predicate Explains(b: Bounds, es: seq<Event>, i: nat, s: State)
    requires i <= |es|
  {
    && s.bounds == b
    && (s.authorized <==> exists a: nat :: a < i && Authorizes(b, es, a))
    && (!s.authorized ==>
          (s.ownerLive && s.cancelled.None? && !s.closed
           <==> forall j: nat :: j < i ==> !es[j].Authorize? && !es[j].Cancel? && !Early(b, es[j]) && !Late(b, es[j])))
    && (s.frozen.None? && s.authorized ==> (s.ownerLive <==> forall j: nat :: j < i ==> !Early(b, es[j])))
  }

  lemma {:induction false} RunExplained(identity: Identity, b: Bounds, es: seq<Event>, i: nat)
    requires ArbiterAccepts(b) && i <= |es|
    ensures Explains(b, es, i, At(Init(identity, b), es, i))
    ensures i > 0 ==> (Settles(b, es, i - 1) && At(Init(identity, b), es, i - 1).frozen.None?
                       <==> At(Init(identity, b), es, i - 1).frozen.None? && At(Init(identity, b), es, i).frozen.Some?)
  {
    hide Step, Settles;
    var s := Init(identity, b);
    if i > 0 {
      RunExplained(identity, b, es, i - 1);
      RunLater(s, es, 0, i - 1);
      RunLater(s, es, i - 1, i);
      StepExplained(b, es, i, At(s, es, i - 1));
    }
  }

  lemma StepExplained(b: Bounds, es: seq<Event>, i: nat, s: State)
    requires ArbiterAccepts(b) && 0 < i <= |es| && Inv(s) && Explains(b, es, i - 1, s)
    ensures Explains(b, es, i, Step(s, es[i - 1]).0)
    ensures s.frozen.None? ==> (Settles(b, es, i - 1) <==> Step(s, es[i - 1]).0.frozen.Some?)
  {
    hide Step, Inv;
    StepFlags(s, es[i - 1]);
    var t := Step(s, es[i - 1]).0;
    assert !s.authorized ==> (t.authorized <==> Authorizes(b, es, i - 1));
    assert s.authorized ==> exists a: nat :: a < i - 1 && Authorizes(b, es, a);
  }

  /** The frozen choice is exactly what the first settling call in the history dictates, and there is none before it.
      In particular a cancellation before authorization means no choice ever. */
  lemma {:induction false} ChoiceIsFirstSettlement(identity: Identity, b: Bounds, es: seq<Event>, i: nat)
    requires ArbiterAccepts(b) && i <= |es|
    ensures At(Init(identity, b), es, i).frozen.None? <==> forall k: nat :: k < i ==> !Settles(b, es, k)
    ensures forall k: nat :: k < i && Settles(b, es, k) && (forall j: nat :: j < k ==> !Settles(b, es, j))
              ==> At(Init(identity, b), es, i).frozen == Some(ChoiceOf(identity, b, es[k]))
  {
    hide Step, Settles;
    var s := Init(identity, b);
    if i > 0 {
      ChoiceIsFirstSettlement(identity, b, es, i - 1);
      RunExplained(identity, b, es, i);
      RunExplained(identity, b, es, i - 1);
      RunLater(s, es, 0, i - 1);
      RunLater(s, es, i - 1, i);
      if At(s, es, i - 1).frozen.None? && Settles(b, es, i - 1) {
        StepFlags(At(s, es, i - 1), es[i - 1]);
      }
    }
  }

  // ----- when a call succeeds -----

  /** A call is in its execution window. */
  predicate InWindow(s: State, now: U64) {
    s.bounds.admitted <= now < s.bounds.cutoff
  }

  lemma AuthorizedIff(s: State, now: U64)
    requires Inv(s) && ArbiterAccepts(s.bounds)
    ensures Step(s, Authorize(now)).1 == Flag(true) <==>
              !s.authorized && s.ownerLive && s.cancelled.None? && !s.closed && InWindow(s, now)
  {
  }

  /** A candidate is accepted exactly by a live authorized owner without a choice, in the window, and is then the
      choice. */
  lemma AcceptedIff(s: State, e: Event)
    requires Inv(s) && ArbiterAccepts(s.bounds) && (e.Respond? || e.Fail?)
    ensures Step(s, e).1 == Verdict(Accepted) <==>
              s.frozen.None? && s.authorized && s.ownerLive && InWindow(s, e.now)
    ensures Step(s, e).1 == Verdict(Accepted) ==> Step(s, e).0.frozen == Some(ChoiceOf(s.identity, s.bounds, e))
    ensures Step(s, e).1 == Verdict(Duplicate) <==> s.frozen.Some?
  {
  }

  lemma HandedOffIff(s: State, now: U64, writer: Option<Writer>)
    requires Inv(s) && ArbiterAccepts(s.bounds)
    ensures Step(s, Dispatch(now, writer)).1 == Ran(true) <==>
              writer.Some? && MayHandOff(s) && s.bounds.admitted <= now < s.bounds.wire
  {
  }

  /** Cancelling settles the choice of an authorized owner and rules one out for any other. */
  lemma CancelSettles(s: State, now: U64, reason: CancelReason)
    requires Inv(s) && ArbiterAccepts(s.bounds)
    ensures var t := Step(s, Cancel(now, reason)).0; t.cancelled.Some? && (t.frozen.Some? <==> s.authorized)
  {
    hide Update, CancelBy;
    StepLater(s, Cancel(now, reason));
    UpdateAuthorizes(s, now);
    CancelAuthorizes(Update(s, now), reason);
  }

  lemma UpdateAuthorizes(s: State, now: U64)
    ensures Update(s, now).authorized == s.authorized
  {
  }

  lemma CancelAuthorizes(s: State, reason: CancelReason)
    ensures CancelBy(s, reason).authorized == s.authorized && CancelBy(s, reason).cancelled.Some?
  {
  }

  // ----- the object -----

  /** The mutable owner.  Its calls, one per method, are the steps of the machine above. */
  class Owner {
    const identity: Identity
    const bounds: Bounds
    var frozen: Option<Record>
    var cancelled: Option<CancelReason>
    var authorized: bool
    var ownerLive: bool
    var durable: bool
    var handed: bool
    var closed: bool
    var wire: Wire

    function View(): State
      reads this
    {
      State(identity, bounds, frozen, cancelled, authorized, ownerLive, durable, handed, closed, wire)
    }

    ghost predicate Valid()
      reads this
    {
      Inv(View()) && ArbiterAccepts(bounds)
    }

    constructor (identity: Identity, bounds: Bounds)
      requires ArbiterAccepts(bounds)
      ensures View() == Init(identity, bounds) && Valid()
    {
      this.identity, this.bounds := identity, bounds;
      frozen, cancelled, authorized, ownerLive := None, None, false, true;
      durable, handed, closed, wire := false, false, false, NotAttempted;
    }

    /** An owner only for a well-formed identity and usable bounds, with its lease, clock and both memory charges. */
    static method Create(identity: Identity, bounds: Bounds, admission: bool, clock: bool, charged: bool, stored: bool)
      returns (owner: Owner?)
      ensures owner == null <==> !(admission && clock && Context.ValidUuid(identity.dispatchId)
                                   && Context.ValidUuid(identity.ownerEpoch) && Context.ValidUuid(identity.choiceId)
                                   && identity.version != 0 && ArbiterAccepts(bounds) && charged && stored)
      ensures owner != null ==> fresh(owner) && owner.View() == Init(identity, bounds) && owner.Valid()
    {
      owner := null;
      if !admission || !clock || !Context.ValidUuid(identity.dispatchId) || !Context.ValidUuid(identity.ownerEpoch)
         || !Context.ValidUuid(identity.choiceId) || identity.version == 0 || !ArbiterAccepts(bounds)
      {
        return;
      }
      if charged && stored {
        owner := new Owner(identity, bounds);
      }
    }

    method FreezeChoice(status: Option<int>, reason: ChoiceReason)
      modifies this`frozen
      ensures View() == Freeze(old(View()), status, reason)
    {
      if frozen.None? && authorized {
        frozen := Some(Record(identity, status, reason));
      }
    }

    method CloseTheWire()
      modifies this`closed, this`wire
      ensures View() == CloseWire(old(View()))
    {
      closed := true;
      if handed && wire != WriteCompleted && wire != WriteFailed {
        wire := Unknown;
      }
    }

    method UpdateClock(now: U64)
      modifies this
      ensures View() == Update(old(View()), now)
    {
      if now < bounds.admitted {
        ownerLive := false;
        CloseTheWire();
        return;
      }
      if now >= bounds.cutoff {
        if cancelled.None? {
          cancelled := Some(CancelDeadline);
        }
        FreezeChoice(Some(504), Deadline);
      }
      if now >= bounds.wire {
        CloseTheWire();
        if !handed {
          wire := Unknown;
        }
      }
    }

    method AuthorizeDispatch(now: U64) returns (ok: bool)
      requires Valid()
      modifies this
      ensures (View(), Flag(ok)) == Step(old(View()), Authorize(now))
      ensures Valid() && Later(old(View()), View())
      ensures ok <==>
                && !old(authorized) && old(ownerLive) && old(cancelled).None? && !old(closed)
                && bounds.admitted <= now < bounds.cutoff
    {
      hide Update, Inv, Later;
      StepLater(View(), Authorize(now));
      AuthorizedIff(View(), now);
      UpdateClock(now);
      if authorized || !ownerLive || cancelled.Some? || closed {
        return false;
      }
      authorized := true;
      return true;
    }

    method EntryPermitted(now: U64) returns (ok: bool)
      requires Valid()
      ensures ok <==> authorized && ownerLive && cancelled.None? && bounds.admitted <= now < bounds.cutoff
      ensures ok && frozen.None? ==> forall status :: Step(View(), Respond(now, status)).1 == Verdict(Accepted)
    {
      hide Step, Inv;
      UpdateFlags(View(), now);
      ok := authorized && ownerLive && cancelled.None? && now >= bounds.admitted && now < bounds.cutoff;
      if ok && frozen.None? {
        forall status
          ensures Step(View(), Respond(now, status)).1 == Verdict(Accepted)
        {
          AcceptedIff(View(), Respond(now, status));
        }
      }
    }

    method RemainingExecutionMs(now: U64) returns (ms: nat)
      ensures ms > 0 ==> ownerLive && cancelled.None? && bounds.admitted <= now
      ensures ms > 0 ==> now + ms * NS_PER_MS <= bounds.cutoff
      ensures ownerLive && cancelled.None? && bounds.admitted <= now ==> bounds.cutoff < now + (ms + 1) * NS_PER_MS
    {
      if !ownerLive || cancelled.Some? || now < bounds.admitted || now >= bounds.cutoff {
        return 0;
      }
      ms := (bounds.cutoff - now) / NS_PER_MS;
    }

    method SubmitResponse(now: U64, status: int) returns (d: Disposition)
      requires Valid()
      modifies this
      ensures (View(), Verdict(d)) == Step(old(View()), Respond(now, status))
      ensures Valid() && Later(old(View()), View())
      ensures d == Accepted <==>
                old(frozen).None? && old(authorized) && old(ownerLive) && bounds.admitted <= now < bounds.cutoff
      ensures d == Accepted ==> frozen == Some(ChoiceOf(identity, bounds, Respond(now, status)))
    {
      hide Update, Inv, Later;
      StepLater(View(), Respond(now, status));
      AcceptedIff(View(), Respond(now, status));
      var hadChoice := frozen.Some?;
      UpdateClock(now);
      if hadChoice {
        return Duplicate;
      }
      if !authorized || !ownerLive || frozen.Some? {
        return Retired;
      }
      if 200 <= status <= 599 {
        FreezeChoice(Some(status), HandlerResponse);
      } else {
        FreezeChoice(Some(500), ResponseInvalid);
      }
      return Accepted;
    }

    method SubmitFailure(now: U64, failure: AdapterFailure) returns (d: Disposition)
      requires Valid()
      modifies this
      ensures (View(), Verdict(d)) == Step(old(View()), Fail(now, failure))
      ensures Valid() && Later(old(View()), View())
      ensures d == Accepted <==>
                old(frozen).None? && old(authorized) && old(ownerLive) && bounds.admitted <= now < bounds.cutoff
      ensures d == Accepted ==> frozen == Some(ChoiceOf(identity, bounds, Fail(now, failure)))
    {
      hide Update, Inv, Later;
      StepLater(View(), Fail(now, failure));
      AcceptedIff(View(), Fail(now, failure));
      var hadChoice := frozen.Some?;
      UpdateClock(now);
      if hadChoice {
        return Duplicate;
      }
      if !authorized || !ownerLive || frozen.Some? {
        return Retired;
      }
      match failure {
        case FailureHandlerFailed => FreezeChoice(Some(500), HandlerFailed);
        case FailureResponseInvalid => FreezeChoice(Some(500), ResponseInvalid);
        case FailureExecutionCancelled => FreezeChoice(Some(500), ResponseInvalid);
        case FailureAdapterUnavailable => FreezeChoice(Some(503), AdapterUnavailable);
        case FailureResourceExhausted => FreezeChoice(Some(500), ResourceExhausted);
      }
      return Accepted;
    }

    /** The part of a cancellation after the clock: the first reason settles the choice, any but the deadline closes
        the wire. */
    method Settle(reason: CancelReason)
      modifies this
      ensures View() == CancelBy(old(View()), reason)
    {
      hide CloseWire, Freeze, CancelStatus, CancelChoice;
      if cancelled.None? {
        cancelled := Some(reason);
        FreezeChoice(CancelStatus(reason), CancelChoice(reason));
      }
      if reason != CancelDeadline {
        CloseTheWire();
        if reason != CancelClientGone {
          ownerLive := false;
        }
      }
    }

    method CancelOwner(now: U64, reason: CancelReason)
      requires Valid()
      modifies this
      ensures View() == Step(old(View()), Cancel(now, reason)).0
      ensures Valid() && Later(old(View()), View())
      ensures cancelled.Some? && (frozen.Some? <==> old(authorized))
    {
      hide Update, CancelBy, Inv, Later;
      StepLater(View(), Cancel(now, reason));
      CancelSettles(View(), now, reason);
      UpdateClock(now);
      Settle(reason);
    }

    method ConfirmChoice(now: U64, acknowledged: Record) returns (ok: bool)
      requires Valid()
      modifies this
      ensures (View(), Flag(ok)) == Step(old(View()), Confirm(now, acknowledged))
      ensures Valid() && Later(old(View()), View())
      ensures ok ==> durable && frozen == Some(acknowledged)
    {
      hide Update, Inv, Later;
      StepLater(View(), Confirm(now, acknowledged));
      UpdateClock(now);
      if !ownerLive || frozen.None? || frozen.value != acknowledged {
        return false;
      }
      durable := true;
      return true;
    }

    method DispatchWire(now: U64, writer: Option<Writer>) returns (ran: bool)
      requires Valid()
      modifies this
      ensures (View(), Ran(ran)) == Step(old(View()), Dispatch(now, writer))
      ensures Valid() && Later(old(View()), View())
      ensures ran <==> writer.Some? && old(MayHandOff(View())) && bounds.admitted <= now < bounds.wire
      ensures ran ==> handed && closed && frozen == old(frozen)
    {
      hide Update, Inv;
      StepLater(View(), Dispatch(now, writer));
      HandedOffIff(View(), now, writer);
      UpdateClock(now);
      if writer.None? || !ownerLive || closed || handed || !durable || frozen.None? || frozen.value.status.None? {
        return false;
      }
      handed := true;
      match writer.value {
        case Reports(observed) =>
          wire := if observed == NotAttempted || observed == AttemptStarted then observed else Unknown;
        case Throws => wire := Unknown;
      }
      closed := true;
      return true;
    }

    method ObserveWire(record: Record, observation: Wire) returns (ok: bool)
      requires Valid()
      modifies this
      ensures (View(), Flag(ok)) == Step(old(View()), Observe(record, observation))
      ensures Valid() && Later(old(View()), View())
      ensures ok ==> old(handed) && frozen == Some(record) && wire == observation && Rank(wire) == 3
    {
      hide Inv, Later;
      StepLater(View(), Observe(record, observation));
      if !ownerLive || !handed || frozen.None? || frozen.value != record
         || (wire != AttemptStarted && wire != Unknown)
         || (observation != WriteCompleted && observation != WriteFailed) {
        return false;
      }
      wire := observation;
      return true;
    }
  }
}
