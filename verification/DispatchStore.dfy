/** The durable dispatch store as a step machine (dispatch_store.cpp: DispatchStoreSession and its Operation).
    Sessions interleave arbitrarily over one obligations table.  The database is adversarial: any query may fail, any
    open transaction may be killed, and a requested COMMIT is resolved by the server at any later time, before or after
    the client hears a (possibly wrong) negative acknowledgement. */
module DispatchStore {
  import opened Wrappers
  import opened DispatchRecord
  import opened Limits
  import Arbiter = ResponseArbiter

  const MAX_PENDING: nat := 8
  const MAX_PACKAGE_PENDING: nat := 4

  type Outcome = Result<Record, StoreError>

  /** How far the client side of an operation has come. */
  datatype Stage = Queued | Opened | Gated | Inspected | Counted | Cleared | Written | Projected | Ready | Reading

  /** The server side of its transaction. */
  datatype Tx = NoTx | Open | Locked | InDoubt | Rolling(locked: bool) | Settled(committed: bool)

  datatype Op = Op(
    expected: Mutation,
    previous: Option<Record>,
    stage: Stage,
    tx: Tx,
    written: Option<Record>,
    readbackUsed: bool,
    done: bool,
    callbacks: seq<Outcome>)

  datatype Ack = Ack(phase: Phase, record: Record)

  datatype Session = Session(
    binding: Binding,
    acknowledged: Option<Record>,
    busy: bool,
    sealed: bool,
    closing: bool,
    closed: bool,
    hasReader: bool,
    callbackFailure: bool,
    ops: seq<Op>,
    acks: seq<Ack>)

  /** A public call, or a mutation by the environment (authorization, observation, settlement). */
  datatype Call =
    | Prepare
    | Arm(ack: nat)
    | CommitChoice(ack: nat, choice: Arbiter.Record)
    | Environment(mutation: Mutation)

  /** What the session is told by its caller, the driver or the server.  `charged` is whether the admission lease has
      room for the operation; a callback runs outside the lock, so that it throws is learnt at any time after it
      started. */
  datatype Input =
    | Called(call: Call, charged: bool)
    | Begun(acquired: bool)
    | GateLocked
    | RowInspected(row: Option<Record>)
    | PendingCounted(total: nat, package: nat)
    | ReceiptChecked(ok: bool)
    | RowWritten(row: Option<Record>)
    | AuditProjected(ok: bool)
    | RowVerified(row: Option<Record>)
    | CommitAnswered(committed: bool)
    | RowRead(row: Option<Record>)
    | CallbackThrew
    | Failed
    | ServerSettled(committed: bool)
    | CloseRequested
    | DomainClosed

  // ----- one session -----

  predicate HasOp(s: Session) {
    |s.ops| > 0
  }

  function Last(s: Session): Op
    requires HasOp(s)
  {
    s.ops[|s.ops| - 1]
  }

  function SetOp(s: Session, op: Op): Session
    requires HasOp(s)
  {
    s.(ops := s.ops[|s.ops| - 1 := op])
  }

  /** finish: only the first completion counts, and an error seals the session. */
  function Finish(s: Session, outcome: Outcome): Session
    requires HasOp(s)
  {
    var op := Last(s);
    if op.done then s
    else
      SetOp(s, op.(done := true, callbacks := op.callbacks + [outcome]))
      .(busy := false,
        sealed := s.sealed || outcome.Err?,
        acknowledged := if outcome.Ok? then Some(outcome.value) else s.acknowledged,
        acks := if outcome.Ok? then s.acks + [Ack(op.expected.phase, outcome.value)] else s.acks)
  }

  /** A callback that throws seals the session, whatever it is doing by then. */
  function Threw(s: Session): Session {
    if HasOp(s) && (Last(s).done || |s.ops| > 1) then s.(sealed := true, callbackFailure := true) else s
  }

  /** What asking a transaction to roll back makes of it. */
  function RollbackTx(tx: Tx): Tx {
    if tx == Open then Rolling(false) else if tx == Locked then Rolling(true) else tx
  }

  /** rollback: the transaction is retained and asked to roll back, and the operation ends. */
  function Rollback(s: Session, error: StoreError): Session
    requires HasOp(s)
  {
    var op := Last(s);
    var tx := RollbackTx(op.tx);
    Finish(SetOp(s, op.(tx := tx)), Err(error))
  }

  function Advance(s: Session, stage: Stage): Session
    requires HasOp(s)
  {
    SetOp(s, Last(s).(stage := stage))
  }

  /** The mutation a call asks for; an environment step never reopens a settled obligation. */
  function Build(s: Session, call: Call): Result<Mutation, StoreError> {
    match call
    case Prepare => Ok(PrepareMutation(s.binding))
    case Arm(k) =>
      if k >= |s.acks| || s.acks[k].phase != PreparePhase || s.acks[k].record.authorization != Prepared
         || s.acks[k].record.revision == MAX_VERSION
      then Err(InvalidRequest) else Ok(ArmMutation(s.acks[k].record))
    case CommitChoice(k, choice) =>
      if k >= |s.acks| || s.acks[k].phase != AuthorizationPhase || s.acks[k].record.authorization != Dispatched
         || s.acks[k].record.revision == MAX_VERSION
         || (s.acks[k].record.choice.Some? && s.acks[k].record.choice.value != choice)
      then Err(InvalidRequest)
      else
        var ack := s.acks[k].record;
        if s.acknowledged.Some? && s.acknowledged.value.choice.Some? then
          var current := s.acknowledged.value;
          if current.choice.value != choice || current.fence != ack.fence || current.binding != ack.binding
          then Err(Conflict)
          else if !current.pending || current.revision == MAX_VERSION then Err(ExistingState)
          else Ok(ChoiceMutation(current, choice))
        else Ok(ChoiceMutation(ack, choice))
    case Environment(m) =>
      if s.acknowledged.None? || (m.post.pending && !s.acknowledged.value.pending) then Err(InvalidRequest) else Ok(m)
  }

  /** The checks of `mutate` before an operation is charged for. */
  predicate MayMutate(s: Session, m: Mutation) {
    && !s.sealed && !s.busy
    && m.post.binding == s.binding && ExactPostcondition(m.post, m)
    && (m.preRevision == 0 <==> s.acknowledged.None?)
    && (s.acknowledged.Some? ==> m.preRevision == s.acknowledged.value.revision)
    && !s.closing && !s.closed && |s.ops| < MAX_OPERATIONS
  }

  function Mutate(s: Session, m: Mutation, charged: bool): Session {
    if MayMutate(s, m) && charged
    then s.(busy := true, ops := s.ops + [Op(m, s.acknowledged, Queued, NoTx, None, false, false, [])])
    else s
  }

  predicate Active(s: Session, stage: Stage) {
    HasOp(s) && !Last(s).done && Last(s).stage == stage
  }

  /** Every query first checks the domain; a closing one rolls back. */
  function Queried(s: Session, next: Session): Session
    requires HasOp(s)
  {
    if s.closing then Rollback(s, Unavailable) else next
  }

  function InspectedRow(s: Session, row: Option<Record>): Session
    requires HasOp(s)
  {
    var previous := Last(s).previous;
    if previous.None? then if row.Some? then Rollback(s, ExistingState) else Advance(s, Inspected)
    else if row.None? then Rollback(s, Conflict)
    else if row.value.fence != previous.value.fence then Rollback(s, Fenced)
    else if row.value != previous.value then Rollback(s, Conflict)
    else Advance(s, Cleared)
  }

  function SessionStep(s: Session, i: Input): Session {
    match i
    case Called(call, charged) =>
      var m := Build(s, call);
      if m.Err? then s else Mutate(s, m.value, charged)
    case Begun(acquired) =>
      if !Active(s, Queued) then s
      else if !acquired || s.closing then Finish(s, Err(Unavailable))
      else SetOp(s, Last(s).(stage := Opened, tx := Open))
    case GateLocked =>
      if !Active(s, Opened) then s else Queried(s, SetOp(s, Last(s).(stage := Gated, tx := Locked)))
    case RowInspected(row) =>
      if !Active(s, Gated) then s else Queried(s, InspectedRow(s, row))
    case PendingCounted(total, package) =>
      if !Active(s, Inspected) then s
      else Queried(s, if total >= MAX_PENDING || package >= MAX_PACKAGE_PENDING then Rollback(s, Busy)
                   else Advance(s, Counted))
    case ReceiptChecked(ok) =>
      if !Active(s, Counted) then s else Queried(s, if ok then Advance(s, Cleared) else Rollback(s, Conflict))
    case RowWritten(row) =>
      if !Active(s, Cleared) then s
      else Queried(s, if row.None? then Rollback(s, Conflict) else SetOp(s, Last(s).(stage := Written, written := row)))
    case AuditProjected(ok) =>
      if !Active(s, Written) then s
      else if !Last(s).expected.post.projectionConfirmed then Advance(s, Projected)
      else Queried(s, if ok then Advance(s, Projected) else Rollback(s, Conflict))
    case RowVerified(row) =>
      if !Active(s, Projected) then s
      else Queried(s, if row.Some? && ExactPostcondition(row.value, Last(s).expected)
                      then SetOp(s, Last(s).(stage := Ready, tx := InDoubt)) else Rollback(s, Conflict))
    case CommitAnswered(committed) =>
      if !Active(s, Ready) then s
      else if committed then Finish(s, Ok(Last(s).expected.post))
      else if s.hasReader && !s.closing && !s.closed && !Last(s).readbackUsed
      then SetOp(s, Last(s).(stage := Reading, readbackUsed := true))
      else Finish(s, Err(Uncertain))
    case RowRead(row) =>
      if !Active(s, Reading) then s
      else if row.Some? && ExactPostcondition(row.value, Last(s).expected) then Finish(s, Ok(row.value))
      else Finish(s, Err(Uncertain))
    case CallbackThrew => Threw(s)
    case Failed =>
      if HasOp(s) && !Last(s).done then Rollback(s, Uncertain) else s
    case ServerSettled(committed) =>
      if HasOp(s) then SetOp(s, Last(s).(tx := Settled(committed))) else s
    case CloseRequested => s.(closing := true)
    case DomainClosed =>
      if !s.closing then s
      else
        var c := s.(closed := true);
        if HasOp(c) then Rollback(c, Unavailable) else c
  }

  // ----- the table and the sessions over it -----

  /** `chains[id]` is every committed version of row `id`, oldest first; the row is its last version. */
  datatype World = World(chains: map<string, seq<Record>>, gate: Option<nat>, sessions: seq<Session>)

  function Row(chains: map<string, seq<Record>>, id: string): Option<Record> {
    if id in chains && |chains[id]| > 0 then Some(chains[id][|chains[id]| - 1]) else None
  }

  function PendingRows(chains: map<string, seq<Record>>): set<string> {
    set id | id in chains && |chains[id]| > 0 && chains[id][|chains[id]| - 1].pending
  }

  function PackageRows(chains: map<string, seq<Record>>, package: string): set<string> {
    set id | id in PendingRows(chains) && PackageOf(chains[id][|chains[id]| - 1]) == package
  }

  function Append(chains: map<string, seq<Record>>, r: Record): map<string, seq<Record>> {
    var id := IdOf(r.binding);
    chains[id := (if id in chains then chains[id] else []) + [r]]
  }

  datatype Event =
    | Create(binding: Binding, hasReader: bool)
    | Call(sid: nat, call: Call, charged: bool)
    | Begin(sid: nat, acquired: bool)
    | LockGate(sid: nat)
    | Inspect(sid: nat)
    | Count(sid: nat)
    | CheckReceipt(sid: nat, ok: bool)
    | Write(sid: nat)
    | Project(sid: nat, ok: bool)
    | Verify(sid: nat)
    | Answer(sid: nat, committed: bool)
    | ReadBack(sid: nat)
    | Throw(sid: nat)
    | Fail(sid: nat)
    | Resolve(sid: nat, commit: bool)
    | RequestClose(sid: nat)
    | CloseDomain(sid: nat)

  predicate Holds(s: Session) {
    HasOp(s) && (Last(s).tx == Locked || Last(s).tx == InDoubt || Last(s).tx == Rolling(true))
  }

  function Put(w: World, sid: nat, s: Session): World
    requires sid < |w.sessions|
  {
    w.(sessions := w.sessions[sid := s])
  }

  /** A statement inside the transaction: it can only succeed while the server still has it open. */
  function InTx(w: World, sid: nat, i: Input): World
    requires sid < |w.sessions|
  {
    var s := w.sessions[sid];
    Put(w, sid, SessionStep(s, if HasOp(s) && Last(s).tx == Locked then i else Failed))
  }

  /** What INSERT or UPDATE leaves in the transaction: an update matches fence and revision and keeps the fence. */
  function WriteResult(w: World, s: Session): Option<Record>
    requires HasOp(s)
  {
    var op := Last(s);
    var row := Row(w.chains, IdOf(op.expected.post.binding));
    if op.previous.None? then if row.Some? then None else Some(op.expected.post)
    else if row.Some? && row.value.fence == op.previous.value.fence && row.value.revision == op.previous.value.revision
    then Some(op.expected.post.(fence := row.value.fence)) else None
  }

  /** The server settles a transaction: a requested commit either way, anything else by aborting. */
  function Resolved(w: World, sid: nat, commit: bool): World
    requires sid < |w.sessions|
  {
    var s := w.sessions[sid];
    if !HasOp(s) || Last(s).tx.NoTx? || Last(s).tx.Settled? then w
    else
      var committed := commit && Last(s).tx == InDoubt && Last(s).written.Some?;
      World(if committed then Append(w.chains, Last(s).written.value) else w.chains,
            if Holds(s) then None else w.gate,
            w.sessions[sid := SessionStep(s, ServerSettled(committed))])
  }

  function Step(w: World, e: Event): World {
    if e.Create? then
      if ValidBinding(e.binding)
      then w.(sessions := w.sessions
              + [Session(e.binding, None, false, false, false, false, e.hasReader, false, [], [])])
      else w
    else if e.sid >= |w.sessions| then w
    else
      var sid, s := e.sid, w.sessions[e.sid];
      match e
      case Call(_, call, charged) => Put(w, sid, SessionStep(s, Called(call, charged)))
      case Begin(_, acquired) => Put(w, sid, SessionStep(s, Begun(acquired)))
      case LockGate(_) =>
        if !Active(s, Opened) then w
        else if Last(s).tx != Open then Put(w, sid, SessionStep(s, Failed))
        else if w.gate.Some? then w
        else
          var t := SessionStep(s, GateLocked);
          Put(w, sid, t).(gate := if Holds(t) then Some(sid) else None)
      case Inspect(_) => if Active(s, Gated) then InTx(w, sid, RowInspected(Row(w.chains, IdOf(s.binding)))) else w
      case Count(_) =>
        if Active(s, Inspected)
        then InTx(w, sid, PendingCounted(|PendingRows(w.chains)|,
                                         |PackageRows(w.chains, s.binding.context.extension.name)|))
        else w
      case CheckReceipt(_, ok) => if Active(s, Counted) then InTx(w, sid, ReceiptChecked(ok)) else w
      case Write(_) => if Active(s, Cleared) then InTx(w, sid, RowWritten(WriteResult(w, s))) else w
      case Project(_, ok) => if Active(s, Written) then InTx(w, sid, AuditProjected(ok)) else w
      case Verify(_) => if Active(s, Projected) then InTx(w, sid, RowVerified(Last(s).written)) else w
      case Answer(_, committed) =>
        if committed && !(HasOp(s) && Last(s).tx == Settled(true)) then w
        else Put(w, sid, SessionStep(s, CommitAnswered(committed)))
      case ReadBack(_) => Put(w, sid, SessionStep(s, RowRead(Row(w.chains, IdOf(s.binding)))))
      case Throw(_) => Put(w, sid, SessionStep(s, CallbackThrew))
      case Fail(_) => Put(w, sid, SessionStep(s, Failed))
      case Resolve(_, commit) => Resolved(w, sid, commit)
      case RequestClose(_) => Put(w, sid, SessionStep(s, CloseRequested))
      case CloseDomain(_) => Put(w, sid, SessionStep(s, DomainClosed))
  }

  // ----- what one session keeps, whatever it is told -----

  predicate OpPlanned(s: Session, op: Op) {
    && ExactPostcondition(op.expected.post, op.expected) && op.expected.post.binding == s.binding
    && (op.expected.preRevision == 0 <==> op.previous.None?)
    && (op.previous.Some? ==>
          op.previous.value.revision == op.expected.preRevision && op.previous.value.binding == s.binding)
    && (op.previous.Some? && op.expected.post.pending ==> op.previous.value.pending)
  }

  predicate AcksOrdered(s: Session) {
    && (s.acknowledged.None? <==> s.acks == [])
    && (s.acks != [] ==> s.acknowledged == Some(s.acks[|s.acks| - 1].record))
    && (forall i, j :: 0 <= i < j < |s.acks| ==> s.acks[i].record.revision < s.acks[j].record.revision)
    && (forall i :: 0 <= i < |s.acks| ==> s.acks[i].record.binding == s.binding)
  }

  predicate Shape(s: Session) {
    && ValidBinding(s.binding) && AcksOrdered(s)
    && (s.busy <==> HasOp(s) && !Last(s).done)
    && (forall k :: 0 <= k < |s.ops| ==> |s.ops[k].callbacks| == if s.ops[k].done then 1 else 0)
    && (forall k :: 0 <= k < |s.ops| - 1 ==> s.ops[k].done && s.ops[k].callbacks[0].Ok?)
    && (s.closed ==> s.closing && !s.busy)
    && (!HasOp(s) ==> s.acks == [] && !s.sealed)
    && (HasOp(s) ==> OpPlanned(s, Last(s)))
    && (s.busy ==> Last(s).previous == s.acknowledged)
    && (HasOp(s) && Last(s).done ==>
          if Last(s).callbacks[0].Ok?
          then Last(s).callbacks[0].value == Last(s).expected.post && s.acknowledged == Some(Last(s).expected.post)
          else s.sealed && s.acknowledged == Last(s).previous)
  }

  lemma FinishShape(s: Session, outcome: Outcome)
    requires Shape(s) && HasOp(s) && (outcome.Ok? ==> outcome.value == Last(s).expected.post)
    ensures Shape(Finish(s, outcome)) && !Finish(s, outcome).busy
  {
    hide ValidBinding, ExactPostcondition, OpPlanned;
    var t, op := Finish(s, outcome), Last(s);
    if !op.done {
      PlannedRevision(s, op);
      assert Last(t) == op.(done := true, callbacks := op.callbacks + [outcome]);
      PlannedFrame(s, op, t, Last(t));
    }
  }

  lemma PlannedRevision(s: Session, op: Op)
    requires OpPlanned(s, op)
    ensures op.expected.post.revision == op.expected.preRevision + 1 && op.expected.post.binding == s.binding
    ensures op.previous.Some? ==> op.previous.value.revision < op.expected.post.revision
  {
  }

  lemma PlannedFrame(s: Session, op: Op, t: Session, op': Op)
    requires OpPlanned(s, op) && t.binding == s.binding && op'.expected == op.expected && op'.previous == op.previous
    ensures OpPlanned(t, op')
  {
  }

  /** Changing only how far the last operation has come. */
  lemma ProgressShape(s: Session, op: Op)
    requires Shape(s) && HasOp(s)
    requires op == Last(s).(stage := op.stage, tx := op.tx, written := op.written, readbackUsed := op.readbackUsed)
    ensures Shape(SetOp(s, op)) && HasOp(SetOp(s, op)) && Last(SetOp(s, op)) == op
  {
    hide ValidBinding, ExactPostcondition, OpPlanned;
    PlannedFrame(s, Last(s), SetOp(s, op), op);
  }

  lemma RollbackShape(s: Session, error: StoreError)
    requires Shape(s) && HasOp(s)
    ensures Shape(Rollback(s, error)) && !Rollback(s, error).busy
  {
    hide Shape, Finish, SetOp;
    var op := Last(s);
    var tx := RollbackTx(op.tx);
    ProgressShape(s, op.(tx := tx));
    FinishShape(SetOp(s, op.(tx := tx)), Err(error));
  }

  /** The acknowledgement a call names is the acknowledged record whenever their revisions agree. */
  lemma CurrentAck(s: Session, k: nat)
    requires AcksOrdered(s) && k < |s.acks| && s.acknowledged.Some?
    requires s.acks[k].record.revision == s.acknowledged.value.revision
    ensures s.acknowledged == Some(s.acks[k].record)
  {
  }

  lemma MutateShape(s: Session, call: Call, charged: bool)
    requires Shape(s) && Build(s, call).Ok?
    ensures Shape(Mutate(s, Build(s, call).value, charged))
  {
    hide ValidBinding, ExactPostcondition, OpPlanned;
    var m := Build(s, call).value;
    if MayMutate(s, m) && charged {
      var t := Mutate(s, m, charged);
      BuildPlanned(s, call, Last(t));
      PlannedFrame(s, Last(t), t, Last(t));
    }
  }

  lemma BuildPlanned(s: Session, call: Call, op: Op)
    requires AcksOrdered(s) && Build(s, call).Ok? && MayMutate(s, Build(s, call).value)
    requires op.expected == Build(s, call).value && op.previous == s.acknowledged
    ensures OpPlanned(s, op)
  {
    hide ValidBinding, ExactPostcondition;
    if call.Arm? || call.CommitChoice? {
      if s.acknowledged.Some? && s.acks[call.ack].record.revision == s.acknowledged.value.revision {
        CurrentAck(s, call.ack);
      }
    }
  }

  /** Whatever a session is told, it stays well formed: at most one open operation, each callback run at most once and
      exactly once after the domain closed, acknowledgements in strictly increasing revisions. */
  lemma SessionStepShape(s: Session, i: Input)
    requires Shape(s)
    ensures Shape(SessionStep(s, i))
  {
    hide Shape, Finish, Rollback, Mutate, SetOp, Build, ExactPostcondition;
    match i {
      case Called(call, charged) =>
        if Build(s, call).Ok? {
          MutateShape(s, call, charged);
        }
      case CallbackThrew => ThrewShape(s);
      case CloseRequested => CloseShape(s);
      case DomainClosed => CloseShape(s);
      case _ =>
        if HasOp(s) {
          OperationShape(s, i);
        }
    }
  }

  /** Steps of the last operation. */
  lemma OperationShape(s: Session, i: Input)
    requires Shape(s) && HasOp(s) && !i.Called? && !i.CallbackThrew? && !i.CloseRequested? && !i.DomainClosed?
    ensures Shape(SessionStep(s, i))
  {
    hide Shape, Finish, Rollback, SetOp, ExactPostcondition;
    forall error { RollbackShape(s, error); }
    forall error { FinishShape(s, Err(error)); }
    FinishShape(s, Ok(Last(s).expected.post));
    forall stage { ProgressShape(s, Last(s).(stage := stage)); }
    match i {
      case Begun(_) => ProgressShape(s, Last(s).(stage := Opened, tx := Open));
      case GateLocked => ProgressShape(s, Last(s).(stage := Gated, tx := Locked));
      case RowWritten(row) => ProgressShape(s, Last(s).(stage := Written, written := row));
      case RowVerified(_) => ProgressShape(s, Last(s).(stage := Ready, tx := InDoubt));
      case CommitAnswered(_) => ProgressShape(s, Last(s).(stage := Reading, readbackUsed := true));
      case RowRead(row) =>
        if row.Some? {
          ExactRow(row.value, Last(s).expected);
        }
      case ServerSettled(committed) => ProgressShape(s, Last(s).(tx := Settled(committed)));
      case _ =>
    }
  }

  lemma ThrewStep(s: Session)
    ensures SessionStep(s, CallbackThrew) == Threw(s)
  {
  }

  lemma ThrewShape(s: Session)
    requires Shape(s)
    ensures Shape(Threw(s))
  {
    hide ValidBinding, ExactPostcondition, OpPlanned, AcksOrdered;
    if HasOp(s) {
      PlannedFrame(s, Last(s), Threw(s), Last(s));
    }
    SameAcks(s, Threw(s));
  }

  lemma SameAcks(s: Session, t: Session)
    requires AcksOrdered(s) && t.acks == s.acks && t.acknowledged == s.acknowledged && t.binding == s.binding
    ensures AcksOrdered(t)
  {
  }

  lemma ExactRow(row: Record, m: Mutation)
    ensures ExactPostcondition(row, m) ==> row == m.post && row.revision == m.preRevision + 1
  {
  }

  lemma CloseShape(s: Session)
    requires Shape(s)
    ensures Shape(s.(closing := true))
    ensures s.closing ==> Shape(SessionStep(s, DomainClosed))
  {
    hide Rollback, OpPlanned, ExactPostcondition, ValidBinding;
    if HasOp(s) {
      PlannedFrame(s, Last(s), s.(closing := true), Last(s));
      RollbackShape(s, Unavailable);
      RollbackClosed(s, Unavailable);
      var f := Rollback(s, Unavailable);
      PlannedFrame(f, Last(f), f.(closed := true), Last(f));
    }
  }

  lemma FinishClosed(s: Session, outcome: Outcome)
    requires HasOp(s)
    ensures Finish(s.(closed := true), outcome) == Finish(s, outcome).(closed := true)
    ensures Finish(s, outcome).closing == s.closing && HasOp(Finish(s, outcome))
  {
    hide SetOp;
    assert Last(s.(closed := true)) == Last(s);
    if !Last(s).done {
      SetOpClosed(s, Last(s).(done := true, callbacks := Last(s).callbacks + [outcome]));
    }
  }

  lemma SetOpClosed(s: Session, op: Op)
    requires HasOp(s)
    ensures SetOp(s.(closed := true), op) == SetOp(s, op).(closed := true)
    ensures SetOp(s, op).closing == s.closing && HasOp(SetOp(s, op))
    ensures SetOp(s, op) == s.(ops := SetOp(s, op).ops)
  {
  }

  lemma RollbackClosed(s: Session, error: StoreError)
    requires HasOp(s)
    ensures Rollback(s.(closed := true), error) == Rollback(s, error).(closed := true)
    ensures Rollback(s, error).closing == s.closing && HasOp(Rollback(s, error))
  {
    hide SetOp, Finish, Rollback;
    var asked := Last(s).(tx := RollbackTx(Last(s).tx));
    RollbackIs(s, error);
    RollbackIs(s.(closed := true), error);
    assert Last(s.(closed := true)) == Last(s);
    SetOpClosed(s, asked);
    FinishClosed(SetOp(s, asked), Err(error));
  }

  lemma RollbackIs(s: Session, error: StoreError)
    requires HasOp(s)
    ensures HasOp(SetOp(s, Last(s).(tx := RollbackTx(Last(s).tx))))
    ensures Rollback(s, error) == Finish(SetOp(s, Last(s).(tx := RollbackTx(Last(s).tx))), Err(error))
  {
    hide Finish;
  }

  // ----- what the table keeps -----

  /** Committed version k of row `id`: revision k + 1, of one binding and one fence. */
  predicate VersionOk(id: string, chain: seq<Record>, k: nat)
    requires k < |chain|
  {
    && chain[k].revision == k + 1 && IdOf(chain[k].binding) == id && ValidRecord(chain[k])
    && chain[k].binding == chain[0].binding && chain[k].fence == chain[0].fence
    && (k > 0 && chain[k].pending ==> chain[k - 1].pending)
  }

  predicate ChainsOk(chains: map<string, seq<Record>>) {
    forall id :: id in chains ==> |chains[id]| > 0 && forall k :: 0 <= k < |chains[id]| ==> VersionOk(id, chains[id], k)
  }

  /** `r` is exactly one of the committed versions of its row. */
  predicate InChain(chains: map<string, seq<Record>>, r: Record) {
    var id := IdOf(r.binding);
    id in chains && 1 <= r.revision <= |chains[id]| && chains[id][r.revision - 1] == r
  }

  ghost predicate Capacity(chains: map<string, seq<Record>>) {
    |PendingRows(chains)| <= MAX_PENDING && forall package :: |PackageRows(chains, package)| <= MAX_PACKAGE_PENDING
  }

  predicate Room(chains: map<string, seq<Record>>, package: string) {
    |PendingRows(chains)| < MAX_PENDING && |PackageRows(chains, package)| < MAX_PACKAGE_PENDING
  }

  predicate TxStage(op: Op) {
    match op.tx
    case NoTx => op.stage == Queued
    case Open => op.stage == Opened && !op.done
    case Locked => !op.done && op.stage != Queued && op.stage != Opened && op.stage != Ready && op.stage != Reading
    case InDoubt => (op.stage == Ready || op.stage == Reading) && op.written == Some(op.expected.post)
    case Rolling(_) => op.done
    case Settled(committed) => committed ==> op.stage == Ready || op.stage == Reading
  }

  /** What an operation that holds the gate has learned, and that stays true because nobody else can commit. */
  predicate Learned(chains: map<string, seq<Record>>, op: Op) {
    var id := IdOf(op.expected.post.binding);
    && (op.stage != Gated ==> Row(chains, id) == op.previous)
    && (op.stage != Gated && op.stage != Inspected && op.previous.None? ==> Room(chains, PackageOf(op.expected.post)))
    && (op.stage == Written || op.stage == Projected || op.stage == Ready || op.stage == Reading ==>
          op.written.Some? && (op.previous.Some? ==> op.written.value.fence == op.previous.value.fence))
  }

  predicate Facts(chains: map<string, seq<Record>>, s: Session) {
    && (forall k :: 0 <= k < |s.acks| ==> InChain(chains, s.acks[k].record))
    && (HasOp(s) ==>
          && TxStage(Last(s))
          && (Last(s).tx == Locked || Last(s).tx == InDoubt ==> Learned(chains, Last(s)))
          && (Last(s).tx == Settled(true) ==> InChain(chains, Last(s).expected.post))
          && (Last(s).done && !s.sealed ==> Last(s).tx.Settled?))
  }

  ghost predicate Inv(w: World) {
    && ChainsOk(w.chains) && Capacity(w.chains)
    && (forall sid :: 0 <= sid < |w.sessions| ==> Shape(w.sessions[sid]) && Facts(w.chains, w.sessions[sid]))
    && (forall sid :: 0 <= sid < |w.sessions| ==> (Holds(w.sessions[sid]) <==> w.gate == Some(sid)))
    && (w.gate.Some? ==> w.gate.value < |w.sessions|)
  }

  lemma SubsetSize<T>(a: set<T>, b: set<T>)
    requires a <= b
    ensures |a| <= |b|
  {
    if a != {} {
      var x :| x in a;
      SubsetSize(a - {x}, b - {x});
    }
  }

  lemma GrowthKeepsChains(chains: map<string, seq<Record>>, r: Record, q: Record)
    requires InChain(chains, q)
    ensures InChain(Append(chains, r), q)
  {
  }

  /** A row taken from revision r to r + 1 with binding and fence unchanged keeps the chains well formed. */
  lemma AppendChains(chains: map<string, seq<Record>>, r: Record)
    requires ChainsOk(chains) && ValidRecord(r)
    requires var row := Row(chains, IdOf(r.binding));
             && r.revision == (if row.Some? then row.value.revision + 1 else 1)
             && (row.Some? ==>
                   row.value.binding == r.binding && row.value.fence == r.fence && (r.pending ==> row.value.pending))
    ensures ChainsOk(Append(chains, r)) && InChain(Append(chains, r), r)
  {
    hide ValidRecord;
    var id := IdOf(r.binding);
    var next := Append(chains, r);
    if id in chains {
      assert VersionOk(id, chains[id], |chains[id]| - 1);
    }
    forall other | other in next
      ensures |next[other]| > 0 && forall k :: 0 <= k < |next[other]| ==> VersionOk(other, next[other], k)
    {
      if other == id && id in chains {
        forall k | 0 <= k < |next[id]|
          ensures VersionOk(id, next[id], k)
        {
          if k < |chains[id]| {
            assert VersionOk(id, chains[id], k);
          }
        }
      }
    }
  }

  lemma PendingGrowth(chains: map<string, seq<Record>>, r: Record, package: string)
    requires Row(chains, IdOf(r.binding)).Some? ==>
               var row := Row(chains, IdOf(r.binding)).value;
               row.binding == r.binding && (r.pending ==> row.pending)
    ensures var added := if Row(chains, IdOf(r.binding)).None? then {IdOf(r.binding)} else {};
            && PendingRows(Append(chains, r)) <= PendingRows(chains) + added
            && PackageRows(Append(chains, r), package) <=
               PackageRows(chains, package) + (if package == PackageOf(r) then added else {})
  {
    var id, next := IdOf(r.binding), Append(chains, r);
    forall x | x in PendingRows(next) && x != id
      ensures x in PendingRows(chains)
      ensures PackageOf(next[x][|next[x]| - 1]) == PackageOf(chains[x][|chains[x]| - 1])
    {
      assert next[x] == chains[x];
    }
    assert next[id][|next[id]| - 1] == r;
  }

  lemma AppendCapacity(chains: map<string, seq<Record>>, r: Record)
    requires Capacity(chains)
    requires var row := Row(chains, IdOf(r.binding));
             if row.Some? then row.value.binding == r.binding && (r.pending ==> row.value.pending)
             else Room(chains, PackageOf(r))
    ensures Capacity(Append(chains, r))
  {
    hide Append, PendingRows, PackageRows, Row;
    var id := IdOf(r.binding);
    var next, added := Append(chains, r), if Row(chains, id).None? then {id} else {};
    PendingGrowth(chains, r, "");
    SubsetSize(PendingRows(next), PendingRows(chains) + added);
    forall package
      ensures |PackageRows(next, package)| <= MAX_PACKAGE_PENDING
    {
      var extra := if package == PackageOf(r) then added else {};
      PendingGrowth(chains, r, package);
      SubsetSize(PackageRows(next, package), PackageRows(chains, package) + extra);
    }
  }

  /** A session that does not hold the gate is not disturbed by somebody else's commit. */
  lemma FactsFrame(chains: map<string, seq<Record>>, r: Record, s: Session)
    requires Facts(chains, s) && !Holds(s)
    ensures Facts(Append(chains, r), s)
  {
    hide Append, InChain;
    forall k | 0 <= k < |s.acks|
      ensures InChain(Append(chains, r), s.acks[k].record)
    {
      GrowthKeepsChains(chains, r, s.acks[k].record);
    }
    if HasOp(s) && Last(s).tx == Settled(true) {
      GrowthKeepsChains(chains, r, Last(s).expected.post);
    }
  }

  lemma RowInChain(chains: map<string, seq<Record>>, id: string)
    requires ChainsOk(chains) && Row(chains, id).Some?
    ensures InChain(chains, Row(chains, id).value) && IdOf(Row(chains, id).value.binding) == id
  {
    assert VersionOk(id, chains[id], |chains[id]| - 1);
  }

  // ----- preservation, event by event -----

  lemma RollbackOp(s: Session, error: StoreError)
    requires HasOp(s)
    ensures var op, t := Last(s), Rollback(s, error);
            && HasOp(t) && t.acks == s.acks && t.binding == s.binding
            && (!op.done || s.sealed ==> t.sealed)
            && Last(t) == (if op.done then op else op.(done := true, callbacks := op.callbacks + [Err(error)]))
                          .(tx := RollbackTx(op.tx))
  {
  }

  lemma RollbackFacts(chains: map<string, seq<Record>>, s: Session, error: StoreError)
    requires HasOp(s) && Facts(chains, s) && (Last(s).done && !s.sealed ==> Rollback(s, error) == s)
    ensures Facts(chains, Rollback(s, error)) && Holds(Rollback(s, error)) == Holds(s)
  {
    hide Rollback, InChain, Row, Room;
    RollbackOp(s, error);
  }

  lemma RollbackDone(s: Session, error: StoreError)
    requires HasOp(s) && Last(s).done && Last(s).tx != Open && Last(s).tx != Locked
    ensures Rollback(s, error) == s
  {
  }

  lemma FinishFacts(chains: map<string, seq<Record>>, s: Session, outcome: Outcome)
    requires HasOp(s) && Facts(chains, s) && Last(s).tx != Open && Last(s).tx != Locked
    requires outcome.Ok? ==> InChain(chains, outcome.value) && Last(s).tx.Settled?
    ensures Facts(chains, Finish(s, outcome)) && Holds(Finish(s, outcome)) == Holds(s)
  {
    hide InChain, Row, Room, ExactPostcondition;
  }

  /** Moving the last operation on, once its new facts are known. */
  lemma ProgressFacts(chains: map<string, seq<Record>>, s: Session, op: Op)
    requires HasOp(s) && Facts(chains, s) && TxStage(op)
    requires op.tx == Locked || op.tx == InDoubt ==> Learned(chains, op)
    requires op.tx == Settled(true) ==> InChain(chains, op.expected.post)
    requires op.done && !s.sealed ==> op.tx.Settled?
    ensures Facts(chains, SetOp(s, op)) && HasOp(SetOp(s, op)) && Last(SetOp(s, op)) == op
  {
    hide InChain, Row, Room, ExactPostcondition, Learned, TxStage;
  }

  lemma InspectFacts(chains: map<string, seq<Record>>, s: Session)
    requires Shape(s) && Facts(chains, s) && Active(s, Gated) && Last(s).tx == Locked
    ensures var t := InspectedRow(s, Row(chains, IdOf(s.binding)));
            Facts(chains, t) && Holds(t)
  {
    hide Rollback, SetOp, InChain, Facts, Row, Shape, OpPlanned;
    forall error { RollbackFacts(chains, s, error); }
    FactsOfOp(chains, s);
    PlannedBinding(s);
    var op, row := Last(s), Row(chains, IdOf(s.binding));
    if row == op.previous {
      ProgressFacts(chains, s, op.(stage := if op.previous.None? then Inspected else Cleared));
    }
  }

  lemma CountFacts(chains: map<string, seq<Record>>, s: Session)
    requires Shape(s) && Facts(chains, s) && Active(s, Inspected) && Last(s).tx == Locked
    requires Room(chains, s.binding.context.extension.name)
    ensures Facts(chains, Advance(s, Counted)) && Holds(Advance(s, Counted))
  {
    hide SetOp, InChain, Facts, Row, Shape, OpPlanned, Room;
    FactsOfOp(chains, s);
    PlannedBinding(s);
    ProgressFacts(chains, s, Last(s).(stage := Counted));
  }

  lemma WriteFacts(w: World, s: Session)
    requires Shape(s) && Facts(w.chains, s) && Active(s, Cleared) && Last(s).tx == Locked && WriteResult(w, s).Some?
    ensures var t := SetOp(s, Last(s).(stage := Written, written := WriteResult(w, s)));
            Facts(w.chains, t) && Holds(t)
  {
    hide SetOp, InChain, Facts, Row, Shape, Room;
    FactsOfOp(w.chains, s);
    PlannedBinding(s);
    ProgressFacts(w.chains, s, Last(s).(stage := Written, written := WriteResult(w, s)));
  }

  lemma AdvanceFacts(chains: map<string, seq<Record>>, s: Session, stage: Stage)
    requires HasOp(s) && Facts(chains, s) && !Last(s).done && Last(s).tx == Locked
    requires (Last(s).stage == Counted && stage == Cleared) || (Last(s).stage == Written && stage == Projected)
    ensures Facts(chains, Advance(s, stage)) && Holds(Advance(s, stage))
  {
    hide SetOp, InChain, Facts, Row, Room;
    FactsOfOp(chains, s);
    ProgressFacts(chains, s, Last(s).(stage := stage));
  }

  lemma VerifyFacts(chains: map<string, seq<Record>>, s: Session)
    requires Facts(chains, s) && Active(s, Projected) && Last(s).tx == Locked
             && Last(s).written == Some(Last(s).expected.post)
    ensures var t := SetOp(s, Last(s).(stage := Ready, tx := InDoubt));
            Facts(chains, t) && Holds(t)
  {
    hide SetOp, InChain, Facts, Row, Room;
    FactsOfOp(chains, s);
    ProgressFacts(chains, s, Last(s).(stage := Ready, tx := InDoubt));
  }

  /** The statements inside the gate, each fed what the table really holds. */
  lemma GatedFacts(w: World, s: Session, i: Input)
    requires Shape(s) && HasOp(s) && Facts(w.chains, s) && Last(s).tx == Locked
    requires match i
             case RowInspected(row) => Active(s, Gated) && row == Row(w.chains, IdOf(s.binding))
             case PendingCounted(total, package) =>
               && Active(s, Inspected) && total == |PendingRows(w.chains)|
               && package == |PackageRows(w.chains, s.binding.context.extension.name)|
             case ReceiptChecked(_) => Active(s, Counted)
             case RowWritten(row) => Active(s, Cleared) && row == WriteResult(w, s)
             case AuditProjected(_) => Active(s, Written)
             case RowVerified(row) => Active(s, Projected) && row == Last(s).written
             case _ => false
    ensures Facts(w.chains, SessionStep(s, i)) && Holds(SessionStep(s, i))
  {
    hide Rollback, SetOp, ExactPostcondition, Facts, Row, Shape, InspectedRow, Advance, WriteResult, PendingRows,
        PackageRows;
    forall error { RollbackFacts(w.chains, s, error); }
    match i {
      case RowInspected(row) => InspectFacts(w.chains, s);
      case PendingCounted(total, package) =>
        if total < MAX_PENDING && package < MAX_PACKAGE_PENDING {
          CountFacts(w.chains, s);
        }
      case ReceiptChecked(_) => AdvanceFacts(w.chains, s, Cleared);
      case RowWritten(row) =>
        if row.Some? {
          WriteFacts(w, s);
        }
      case AuditProjected(_) => AdvanceFacts(w.chains, s, Projected);
      case RowVerified(row) =>
        if row.Some? && ExactPostcondition(row.value, Last(s).expected) {
          ExactRow(row.value, Last(s).expected);
          VerifyFacts(w.chains, s);
        }
    }
  }

  lemma FactsOfOp(chains: map<string, seq<Record>>, s: Session)
    requires HasOp(s) && Facts(chains, s)
    ensures TxStage(Last(s))
    ensures Last(s).tx == Locked || Last(s).tx == InDoubt ==> Learned(chains, Last(s))
    ensures Last(s).tx == Settled(true) ==> InChain(chains, Last(s).expected.post)
  {
  }

  lemma PlannedBinding(s: Session)
    requires Shape(s) && HasOp(s)
    ensures Last(s).expected.post.binding == s.binding && OpPlanned(s, Last(s))
  {
  }

  /** Everything that needs no gate. */
  lemma UngatedFacts(chains: map<string, seq<Record>>, s: Session, i: Input)
    requires ChainsOk(chains) && Shape(s) && Facts(chains, s)
    requires match i
             case Called(_, _) => true
             case Begun(_) => true
             case CommitAnswered(committed) => committed ==> HasOp(s) && Last(s).tx == Settled(true)
             case RowRead(row) => row == Row(chains, IdOf(s.binding))
             case CallbackThrew => true
             case Failed => true
             case CloseRequested => true
             case DomainClosed => true
             case _ => false
    ensures Facts(chains, SessionStep(s, i)) && Holds(SessionStep(s, i)) == Holds(s)
  {
    hide InChain, Row, ExactPostcondition, ChainsOk, Rollback, Finish, Learned, SetOp, Mutate, Shape, Facts;
    if HasOp(s) {
      FactsOfOp(chains, s);
      if Last(s).done {
        RollbackDone(s, Uncertain);
      }
      RollbackFacts(chains, s, Uncertain);
    }
    match i {
      case Called(call, charged) => CalledFacts(chains, s, call, charged);
      case Begun(acquired) =>
        if Active(s, Queued) {
          BeginFacts(chains, s);
        }
      case CommitAnswered(committed) =>
        if Active(s, Ready) {
          FinishFacts(chains, s, Err(Uncertain));
          if committed {
            FinishFacts(chains, s, Ok(Last(s).expected.post));
          }
          ReadingFacts(chains, s);
        }
      case RowRead(row) =>
        if Active(s, Reading) {
          FinishFacts(chains, s, Err(Uncertain));
          if row.Some? && ExactPostcondition(row.value, Last(s).expected) {
            ReadBackFacts(chains, s);
          }
        }
      case CallbackThrew => ThrewFacts(chains, s);
      case CloseRequested => ClosingFacts(chains, s);
      case DomainClosed => ClosingFacts(chains, s);
      case _ =>
    }
  }

  lemma BeginFacts(chains: map<string, seq<Record>>, s: Session)
    requires Facts(chains, s) && Active(s, Queued)
    ensures Facts(chains, Finish(s, Err(Unavailable))) && Holds(Finish(s, Err(Unavailable))) == Holds(s)
    ensures var t := SetOp(s, Last(s).(stage := Opened, tx := Open)); Facts(chains, t) && Holds(t) == Holds(s)
  {
    hide InChain, Row, Learned, SetOp, Finish;
    FinishFacts(chains, s, Err(Unavailable));
    ProgressFacts(chains, s, Last(s).(stage := Opened, tx := Open));
  }

  /** A readback can only match once the transaction is settled: while it is in doubt the gate keeps the old row. */
  lemma ReadBackFacts(chains: map<string, seq<Record>>, s: Session)
    requires ChainsOk(chains) && Shape(s) && Facts(chains, s) && Active(s, Reading)
    requires Row(chains, IdOf(s.binding)).Some?
             && ExactPostcondition(Row(chains, IdOf(s.binding)).value, Last(s).expected)
    ensures var t := Finish(s, Ok(Row(chains, IdOf(s.binding)).value)); Facts(chains, t) && Holds(t) == Holds(s)
  {
    hide InChain, Row, Finish, ExactPostcondition, ChainsOk, Shape;
    var row := Row(chains, IdOf(s.binding)).value;
    ExactRow(row, Last(s).expected);
    PlannedBinding(s);
    PlannedRevision(s, Last(s));
    RowInChain(chains, IdOf(s.binding));
    FinishFacts(chains, s, Ok(row));
  }

  /** A session free to start an operation has no transaction left open. */
  lemma CalledFacts(chains: map<string, seq<Record>>, s: Session, call: Call, charged: bool)
    requires Shape(s) && Facts(chains, s)
    ensures Facts(chains, SessionStep(s, Called(call, charged)))
    ensures Holds(SessionStep(s, Called(call, charged))) == Holds(s)
  {
    hide InChain, Row, Room, Build, ExactPostcondition, ValidBinding, OpPlanned, AcksOrdered;
    var m := Build(s, call);
    if m.Ok? && MayMutate(s, m.value) && charged {
      assert HasOp(s) ==> Last(s).tx.Settled?;
      var t := SessionStep(s, Called(call, charged));
      assert Last(t).tx == NoTx;
    }
  }

  lemma ReadingFacts(chains: map<string, seq<Record>>, s: Session)
    requires Facts(chains, s) && Active(s, Ready)
    ensures var t := SetOp(s, Last(s).(stage := Reading, readbackUsed := true));
            Facts(chains, t) && Holds(t) == Holds(s)
  {
    hide InChain, Row, Room;
    ProgressFacts(chains, s, Last(s).(stage := Reading, readbackUsed := true));
  }

  lemma ClosingFacts(chains: map<string, seq<Record>>, s: Session)
    requires Facts(chains, s)
    ensures Facts(chains, s.(closing := true)) && Holds(s.(closing := true)) == Holds(s)
    ensures Facts(chains, SessionStep(s, DomainClosed)) && Holds(SessionStep(s, DomainClosed)) == Holds(s)
  {
    hide SessionStep, Facts, Holds;
    RequestedFacts(chains, s);
    DomainClosedFacts(chains, s);
  }

  lemma RequestedFacts(chains: map<string, seq<Record>>, s: Session)
    requires Facts(chains, s)
    ensures Facts(chains, s.(closing := true)) && Holds(s.(closing := true)) == Holds(s)
    ensures Facts(chains, s.(closed := true)) && Holds(s.(closed := true)) == Holds(s)
  {
    hide InChain, Row, Learned;
  }

  lemma ThrewFacts(chains: map<string, seq<Record>>, s: Session)
    requires Facts(chains, s)
    ensures Facts(chains, Threw(s)) && Holds(Threw(s)) == Holds(s)
  {
    hide InChain, Row, Learned;
  }

  lemma DomainClosedFacts(chains: map<string, seq<Record>>, s: Session)
    requires Facts(chains, s)
    ensures Facts(chains, SessionStep(s, DomainClosed)) && Holds(SessionStep(s, DomainClosed)) == Holds(s)
  {
    hide InChain, Row, Rollback, Learned, Finish, Facts, Holds;
    RequestedFacts(chains, s);
    var c := s.(closed := true);
    if HasOp(s) {
      if Last(c).done {
        DoneTx(chains, c);
        RollbackDone(c, Unavailable);
      }
      RollbackFacts(chains, c, Unavailable);
    }
  }

  lemma DoneTx(chains: map<string, seq<Record>>, s: Session)
    requires HasOp(s) && Facts(chains, s) && Last(s).done
    ensures Last(s).tx != Open && Last(s).tx != Locked
  {
    hide InChain, Learned;
  }

  lemma PutInv(w: World, sid: nat, s: Session)
    requires Inv(w) && sid < |w.sessions| && Shape(s) && Facts(w.chains, s) && Holds(s) == Holds(w.sessions[sid])
    ensures Inv(Put(w, sid, s))
  {
    hide Shape, Facts, ChainsOk, Capacity, Holds;
  }

  lemma UngatedInv(w: World, sid: nat, i: Input)
    requires Inv(w) && sid < |w.sessions|
    requires var s := w.sessions[sid];
             match i
             case Called(_, _) => true
             case Begun(_) => true
             case CommitAnswered(committed) => committed ==> HasOp(s) && Last(s).tx == Settled(true)
             case RowRead(row) => row == Row(w.chains, IdOf(s.binding))
             case CallbackThrew => true
             case Failed => true
             case CloseRequested => true
             case DomainClosed => true
             case _ => false
    ensures Inv(Put(w, sid, SessionStep(w.sessions[sid], i)))
  {
    hide Shape, Facts, ChainsOk, Capacity, Holds, SessionStep, Row;
    SessionStepShape(w.sessions[sid], i);
    UngatedFacts(w.chains, w.sessions[sid], i);
    PutInv(w, sid, SessionStep(w.sessions[sid], i));
  }

  lemma InTxInv(w: World, sid: nat, i: Input)
    requires Inv(w) && sid < |w.sessions| && HasOp(w.sessions[sid])
    requires var s := w.sessions[sid];
             match i
             case RowInspected(row) => Active(s, Gated) && row == Row(w.chains, IdOf(s.binding))
             case PendingCounted(total, package) =>
               && Active(s, Inspected) && total == |PendingRows(w.chains)|
               && package == |PackageRows(w.chains, s.binding.context.extension.name)|
             case ReceiptChecked(_) => Active(s, Counted)
             case RowWritten(row) => Active(s, Cleared) && row == WriteResult(w, s)
             case AuditProjected(_) => Active(s, Written)
             case RowVerified(row) => Active(s, Projected) && row == Last(s).written
             case _ => false
    ensures Inv(InTx(w, sid, i))
  {
    hide Shape, Facts, ChainsOk, Capacity, SessionStep, Row, WriteResult, PendingRows, PackageRows;
    var s := w.sessions[sid];
    if Last(s).tx == Locked {
      SessionStepShape(s, i);
      GatedFacts(w, s, i);
      PutInv(w, sid, SessionStep(s, i));
    } else {
      UngatedInv(w, sid, Failed);
    }
  }

  lemma LockInv(w: World, sid: nat)
    requires Inv(w) && sid < |w.sessions|
    ensures Inv(Step(w, LockGate(sid)))
  {
    hide Shape, Facts, ChainsOk, Capacity, SessionStep, Holds;
    var s := w.sessions[sid];
    if Active(s, Opened) {
      if Last(s).tx != Open {
        UngatedInv(w, sid, Failed);
      } else if w.gate.None? {
        var t := SessionStep(s, GateLocked);
        SessionStepShape(s, GateLocked);
        LockFacts(w.chains, s);
      }
    }
  }

  lemma LockFacts(chains: map<string, seq<Record>>, s: Session)
    requires Facts(chains, s) && Active(s, Opened) && Last(s).tx == Open
    ensures Facts(chains, SessionStep(s, GateLocked))
  {
    hide InChain, Row, Rollback, SetOp, Facts;
    FactsOfOp(chains, s);
    RollbackFacts(chains, s, Unavailable);
    if !s.closing {
      LearnedNothing(chains, s);
      ProgressFacts(chains, s, Last(s).(stage := Gated, tx := Locked));
    }
  }

  lemma LearnedNothing(chains: map<string, seq<Record>>, s: Session)
    requires Facts(chains, s) && Active(s, Opened) && Last(s).tx == Open
    ensures Learned(chains, Last(s).(stage := Gated, tx := Locked))
  {
  }

  /** The commit of an operation in doubt is exactly the planned step of its row: revision r to r + 1, binding and
      fence unchanged, and within the pending limits it counted under the gate. */
  lemma CommitChains(chains: map<string, seq<Record>>, s: Session)
    requires ChainsOk(chains) && Capacity(chains) && Shape(s) && Facts(chains, s) && HasOp(s) && Last(s).tx == InDoubt
    ensures Last(s).written == Some(Last(s).expected.post)
    ensures var post := Last(s).expected.post;
            && ChainsOk(Append(chains, post)) && Capacity(Append(chains, post)) && InChain(Append(chains, post), post)
            && Row(chains, IdOf(post.binding)) == Last(s).previous
  {
    hide Append, Row, Room, Capacity, ChainsOk, InChain, Shape;
    PlannedBinding(s);
    var op := Last(s);
    AppendCapacity(chains, op.expected.post);
    AppendChains(chains, op.expected.post);
  }

  lemma SettledFacts(chains: map<string, seq<Record>>, s: Session, committed: bool)
    requires HasOp(s) && Facts(chains, s)
    requires committed ==>
               Last(s).tx == InDoubt && InChain(Append(chains, Last(s).expected.post), Last(s).expected.post)
    ensures var t := SessionStep(s, ServerSettled(committed));
            && Facts(if committed then Append(chains, Last(s).expected.post) else chains, t) && !Holds(t)
  {
    hide Append, InChain, Row, Room;
    if committed {
      forall k | 0 <= k < |s.acks|
        ensures InChain(Append(chains, Last(s).expected.post), s.acks[k].record)
      {
        GrowthKeepsChains(chains, Last(s).expected.post, s.acks[k].record);
      }
    }
  }

  lemma ResolveInv(w: World, sid: nat, commit: bool)
    requires Inv(w) && sid < |w.sessions|
    ensures Inv(Resolved(w, sid, commit))
  {
    hide Shape, Facts, ChainsOk, Capacity, SessionStep, Append, Row, InChain;
    var s := w.sessions[sid];
    if HasOp(s) && !Last(s).tx.NoTx? && !Last(s).tx.Settled? {
      var committed := commit && Last(s).tx == InDoubt && Last(s).written.Some?;
      var chains := if committed then Append(w.chains, Last(s).written.value) else w.chains;
      if Last(s).tx == InDoubt {
        CommitChains(w.chains, s);
      }
      SessionStepShape(s, ServerSettled(committed));
      SettledFacts(w.chains, s, committed);
      forall other | 0 <= other < |w.sessions| && other != sid
        ensures Facts(chains, w.sessions[other])
      {
        if committed {
          FactsFrame(w.chains, Last(s).written.value, w.sessions[other]);
        }
      }
    }
  }

  lemma CreateInv(w: World, b: Binding, hasReader: bool)
    requires Inv(w)
    ensures Inv(Step(w, Create(b, hasReader)))
  {
    hide ValidBinding, ChainsOk, Capacity, OpPlanned, InChain;
  }

  /** Every event of every session keeps the invariant. */
  lemma StepInv(w: World, e: Event)
    requires Inv(w)
    ensures Inv(Step(w, e))
  {
    hide Inv, SessionStep, Row, PendingRows, PackageRows, WriteResult, Resolved, InTx, Put;
    match e {
      case Create(b, r) => CreateInv(w, b, r);
      case LockGate(sid) => if sid < |w.sessions| { LockInv(w, sid); }
      case Resolve(sid, commit) => if sid < |w.sessions| { ResolveInv(w, sid, commit); }
      case _ =>
        if e.sid < |w.sessions| {
          StepOneInv(w, e);
        }
    }
  }

  lemma StepOneInv(w: World, e: Event)
    requires Inv(w) && !e.Create? && !e.LockGate? && !e.Resolve? && e.sid < |w.sessions|
    ensures Inv(Step(w, e))
  {
    hide Inv, SessionStep, Row, PendingRows, PackageRows, WriteResult, InTx, Put;
    var sid, s := e.sid, w.sessions[e.sid];
    match e {
      case Call(_, call, charged) => UngatedInv(w, sid, Called(call, charged));
      case Begin(_, acquired) => UngatedInv(w, sid, Begun(acquired));
      case Inspect(_) => if Active(s, Gated) { InTxInv(w, sid, RowInspected(Row(w.chains, IdOf(s.binding)))); }
      case Count(_) =>
        if Active(s, Inspected) {
          InTxInv(w, sid, PendingCounted(|PendingRows(w.chains)|,
                                         |PackageRows(w.chains, s.binding.context.extension.name)|));
        }
      case CheckReceipt(_, ok) => if Active(s, Counted) { InTxInv(w, sid, ReceiptChecked(ok)); }
      case Write(_) => if Active(s, Cleared) { InTxInv(w, sid, RowWritten(WriteResult(w, s))); }
      case Project(_, ok) => if Active(s, Written) { InTxInv(w, sid, AuditProjected(ok)); }
      case Verify(_) => if Active(s, Projected) { InTxInv(w, sid, RowVerified(Last(s).written)); }
      case Answer(_, committed) =>
        if !committed || (HasOp(s) && Last(s).tx == Settled(true)) {
          UngatedInv(w, sid, CommitAnswered(committed));
        }
      case ReadBack(_) => UngatedInv(w, sid, RowRead(Row(w.chains, IdOf(s.binding))));
      case Throw(_) => UngatedInv(w, sid, CallbackThrew);
      case Fail(_) => UngatedInv(w, sid, Failed);
      case RequestClose(_) => UngatedInv(w, sid, CloseRequested);
      case CloseDomain(_) => UngatedInv(w, sid, DomainClosed);
    }
  }

  // ----- whole runs -----

  const EMPTY: World := World(map[], None, [])

  function After(es: seq<Event>, i: nat): World
    requires i <= |es|
  {
    if i == 0 then EMPTY else Step(After(es, i - 1), es[i - 1])
  }

  /** Versions are only ever added, and a session keeps its place and its binding. */
  predicate Extends(v: World, w: World) {
    && (forall id :: id in v.chains ==> id in w.chains && v.chains[id] <= w.chains[id])
    && |v.sessions| <= |w.sessions|
    && (forall sid :: 0 <= sid < |v.sessions| ==> SessionLater(v.sessions[sid], w.sessions[sid]))
  }

  /** What a session never takes back. */
  predicate SessionLater(s: Session, t: Session) {
    && t.binding == s.binding && s.acks <= t.acks && |s.ops| <= |t.ops|
    && (forall k :: 0 <= k < |s.ops| ==>
          s.ops[k].callbacks <= t.ops[k].callbacks && (s.ops[k].readbackUsed ==> t.ops[k].readbackUsed))
    && (s.sealed ==> t.sealed && |t.ops| == |s.ops|)
    && (s.sealed && !s.busy ==> !t.busy && t.acks == s.acks && t.acknowledged == s.acknowledged)
    && (s.closed ==> t.closed)
  }

  lemma FinishLater(s: Session, outcome: Outcome)
    requires Shape(s) && HasOp(s)
    ensures SessionLater(s, Finish(s, outcome))
  {
    hide ValidBinding, OpPlanned, AcksOrdered;
  }

  lemma RollbackLater(s: Session, error: StoreError)
    requires Shape(s) && HasOp(s)
    ensures SessionLater(s, Rollback(s, error))
  {
    hide ValidBinding, OpPlanned, AcksOrdered;
  }

  lemma ProgressLater(s: Session, op: Op)
    requires HasOp(s) && op.callbacks == Last(s).callbacks && (Last(s).readbackUsed ==> op.readbackUsed)
    ensures SessionLater(s, SetOp(s, op))
  {
  }

  lemma StepSessionLater(s: Session, i: Input)
    requires Shape(s)
    ensures SessionLater(s, SessionStep(s, i))
  {
    hide Shape, Finish, Rollback, SetOp, ExactPostcondition, SessionLater, Mutate, Build;
    if HasOp(s) {
      forall error { RollbackLater(s, error); }
      forall outcome { FinishLater(s, outcome); }
      forall stage { ProgressLater(s, Last(s).(stage := stage)); }
    }
    LaterSelf(s);
    match i {
      case Called(call, charged) =>
        if Build(s, call).Ok? {
          MutateLater(s, Build(s, call).value, charged);
        }
      case Begun(_) => if HasOp(s) { ProgressLater(s, Last(s).(stage := Opened, tx := Open)); }
      case GateLocked => if HasOp(s) { ProgressLater(s, Last(s).(stage := Gated, tx := Locked)); }
      case RowWritten(row) => if HasOp(s) { ProgressLater(s, Last(s).(stage := Written, written := row)); }
      case RowVerified(_) => if HasOp(s) { ProgressLater(s, Last(s).(stage := Ready, tx := InDoubt)); }
      case CommitAnswered(_) => if HasOp(s) { ProgressLater(s, Last(s).(stage := Reading, readbackUsed := true)); }
      case ServerSettled(committed) => if HasOp(s) { ProgressLater(s, Last(s).(tx := Settled(committed))); }
      case CallbackThrew => ThrewLater(s);
      case CloseRequested => CloseLater(s);
      case DomainClosed => CloseLater(s);
      case _ =>
    }
  }

  lemma LaterSelf(s: Session)
    ensures SessionLater(s, s)
  {
  }

  lemma MutateLater(s: Session, m: Mutation, charged: bool)
    ensures SessionLater(s, Mutate(s, m, charged))
  {
    hide ExactPostcondition;
  }

  lemma ThrewLater(s: Session)
    ensures SessionLater(s, Threw(s))
  {
  }

  lemma CloseLater(s: Session)
    requires Shape(s)
    ensures SessionLater(s, s.(closing := true)) && SessionLater(s, SessionStep(s, DomainClosed))
  {
    hide Rollback, Shape;
    if HasOp(s) {
      RollbackClosed(s, Unavailable);
      RollbackLater(s, Unavailable);
    }
  }

  ghost predicate Framed(w: World, v: World, settling: bool) {
    && |w.sessions| <= |v.sessions|
    && (forall sid :: 0 <= sid < |w.sessions| ==>
          v.sessions[sid] == w.sessions[sid] || StepsTo(w.sessions[sid], v.sessions[sid], settling))
  }

  lemma PutFrame(w: World, sid: nat, i: Input)
    requires sid < |w.sessions| && !i.ServerSettled?
    ensures var v := Put(w, sid, SessionStep(w.sessions[sid], i));
            v.chains == w.chains && Framed(w, v, false) && forall gate :: Framed(w, v.(gate := gate), false)
  {
    hide SessionStep;
    StepsToSelf(w.sessions[sid], i);
  }

  /** Only a resolution touches the table, and a session changes only by its own inputs. */
  lemma StepFrame(w: World, e: Event)
    ensures !e.Resolve? ==> Step(w, e).chains == w.chains
    ensures |w.sessions| <= |Step(w, e).sessions|
    ensures forall sid :: 0 <= sid < |w.sessions| ==>
              Step(w, e).sessions[sid] == w.sessions[sid]
                  || StepsTo(w.sessions[sid], Step(w, e).sessions[sid], e.Resolve?)
  {
    if e.Resolve? {
      ResolveFrame(w, e.sid, e.commit);
    } else {
      OtherFrame(w, e);
    }
  }

  lemma InTxFrame(w: World, sid: nat, i: Input)
    requires sid < |w.sessions| && !i.ServerSettled?
    ensures InTx(w, sid, i).chains == w.chains && Framed(w, InTx(w, sid, i), false)
  {
    hide SessionStep, Put, Framed;
    PutFrame(w, sid, i);
    PutFrame(w, sid, Failed);
  }

  lemma OtherFrame(w: World, e: Event)
    requires !e.Resolve?
    ensures Step(w, e).chains == w.chains && Framed(w, Step(w, e), false)
  {
    hide SessionStep, Row, PendingRows, PackageRows, WriteResult, Put, InTx, Framed;
    if e.Create? || e.sid >= |w.sessions| {
      CreateFrame(w, e);
    } else {
      FramedSelf(w);
      var sid, s := e.sid, w.sessions[e.sid];
      match e
      case Call(_, call, charged) => PutFrame(w, sid, Called(call, charged));
      case Begin(_, acquired) => PutFrame(w, sid, Begun(acquired));
      case LockGate(_) =>
        PutFrame(w, sid, Failed);
        PutFrame(w, sid, GateLocked);
      case Inspect(_) => InTxFrame(w, sid, RowInspected(Row(w.chains, IdOf(s.binding))));
      case Count(_) =>
        InTxFrame(w, sid, PendingCounted(|PendingRows(w.chains)|,
                                         |PackageRows(w.chains, s.binding.context.extension.name)|));
      case CheckReceipt(_, ok) => InTxFrame(w, sid, ReceiptChecked(ok));
      case Write(_) =>
        if Active(s, Cleared) {
          InTxFrame(w, sid, RowWritten(WriteResult(w, s)));
        }
      case Project(_, ok) => InTxFrame(w, sid, AuditProjected(ok));
      case Verify(_) =>
        if Active(s, Projected) {
          InTxFrame(w, sid, RowVerified(Last(s).written));
        }
      case Answer(_, committed) => PutFrame(w, sid, CommitAnswered(committed));
      case ReadBack(_) => PutFrame(w, sid, RowRead(Row(w.chains, IdOf(s.binding))));
      case Throw(_) => PutFrame(w, sid, CallbackThrew);
      case Fail(_) => PutFrame(w, sid, Failed);
      case RequestClose(_) => PutFrame(w, sid, CloseRequested);
      case CloseDomain(_) => PutFrame(w, sid, DomainClosed);
    }
  }

  lemma FramedSelf(w: World)
    ensures Framed(w, w, false)
  {
  }

  lemma CreateFrame(w: World, e: Event)
    requires e.Create? || e.sid >= |w.sessions|
    ensures Step(w, e).chains == w.chains && Framed(w, Step(w, e), false)
  {
    hide ValidBinding;
  }

  /** `t` follows from `s` by an input, one from the server only during a resolution. */
  ghost predicate StepsTo(s: Session, t: Session, settling: bool) {
    exists i: Input :: t == SessionStep(s, i) && i.ServerSettled? == settling
  }

  lemma StepsToSelf(s: Session, i: Input)
    ensures StepsTo(s, SessionStep(s, i), i.ServerSettled?)
  {
    hide SessionStep;
  }

  lemma ResolveFrame(w: World, sid: nat, commit: bool)
    ensures sid < |w.sessions| ==>
              var r := Resolved(w, sid, commit);
              && |r.sessions| == |w.sessions|
              && forall other :: 0 <= other < |w.sessions| ==>
                   r.sessions[other] == w.sessions[other] || StepsTo(w.sessions[other], r.sessions[other], true)
  {
    hide SessionStep, Append;
    if sid < |w.sessions| {
      var s := w.sessions[sid];
      assert forall c :: StepsTo(s, SessionStep(s, ServerSettled(c)), true);
    }
  }

  lemma StepExtends(w: World, e: Event)
    requires Inv(w)
    ensures forall sid :: 0 <= sid < |w.sessions| ==>
              |w.sessions| <= |Step(w, e).sessions| && SessionLater(w.sessions[sid], Step(w, e).sessions[sid])
  {
    hide Step, SessionStep, Shape, SessionLater, Facts, ChainsOk, Capacity;
    StepFrame(w, e);
    forall sid | 0 <= sid < |w.sessions|
      ensures SessionLater(w.sessions[sid], Step(w, e).sessions[sid])
    {
      var s, t := w.sessions[sid], Step(w, e).sessions[sid];
      LaterSelf(s);
      if t != s {
        var i: Input :| t == SessionStep(s, i);
        StepSessionLater(s, i);
      }
    }
  }

  /** The step a committed record takes its row through. */
  predicate NextVersion(chains: map<string, seq<Record>>, r: Record) {
    var row := Row(chains, IdOf(r.binding));
    && ValidRecord(r)
    && if row.Some? then r.revision == row.value.revision + 1 && r.binding == row.value.binding
           && r.fence == row.value.fence
       else r.revision == 1
  }

  lemma StepSize(w: World, e: Event)
    ensures |w.sessions| <= |Step(w, e).sessions|
  {
    hide Step, StepsTo;
    StepFrame(w, e);
  }

  lemma StepChains(w: World, e: Event)
    requires Inv(w)
    ensures var next := Step(w, e).chains;
            && (forall id :: id in w.chains ==> id in next && w.chains[id] <= next[id])
            && (next == w.chains || exists r: Record :: next == Append(w.chains, r) && NextVersion(w.chains, r))
  {
    hide Step, Inv, Append, NextVersion, StepsTo;
    if e.Resolve? {
      ResolveCommits(w, e.sid, e.commit);
    } else {
      StepFrame(w, e);
    }
  }

  /** One step commits at most one version of one row, taking it from revision r to r + 1 (or creating it at 1) with the
      binding and the fence it had; everything else in the table is untouched. */
  lemma StepCommits(w: World, e: Event)
    requires Inv(w)
    ensures Extends(w, Step(w, e))
    ensures Step(w, e).chains == w.chains
            || exists r: Record :: Step(w, e).chains == Append(w.chains, r) && NextVersion(w.chains, r)
  {
    hide Step, SessionLater, Inv, Append, NextVersion, StepsTo;
    StepSize(w, e);
    StepExtends(w, e);
    StepChains(w, e);
  }

  lemma ResolveCommits(w: World, sid: nat, commit: bool)
    requires Inv(w)
    ensures var next := Step(w, Resolve(sid, commit)).chains;
            && (forall id :: id in w.chains ==> id in next && w.chains[id] <= next[id])
            && (next == w.chains || exists r: Record :: next == Append(w.chains, r) && NextVersion(w.chains, r))
  {
    hide SessionStep, Shape, Facts, ChainsOk, Capacity, Row, Append, NextVersion;
    if sid < |w.sessions| && HasOp(w.sessions[sid]) && Last(w.sessions[sid]).tx == InDoubt {
      var s := w.sessions[sid];
      CommitChains(w.chains, s);
      CommitRecord(w.chains, s);
      AppendExtends(w.chains, Last(s).expected.post);
    }
  }

  lemma AppendExtends(chains: map<string, seq<Record>>, r: Record)
    ensures forall id :: id in chains ==> id in Append(chains, r) && chains[id] <= Append(chains, r)[id]
  {
  }

  lemma CommitRecord(chains: map<string, seq<Record>>, s: Session)
    requires Shape(s) && Facts(chains, s) && HasOp(s) && Last(s).tx == InDoubt
    ensures NextVersion(chains, Last(s).expected.post)
  {
    hide Row, Room, InChain, Shape, ValidRecord, ValidBinding;
    PlannedBinding(s);
  }

  lemma {:induction false} RunInv(es: seq<Event>, i: nat, j: nat)
    requires i <= j <= |es|
    ensures Inv(After(es, i)) && Inv(After(es, j)) && Extends(After(es, i), After(es, j))
    decreases j
  {
    hide Inv, Step;
    if j == 0 {
      EmptyInv();
    } else {
      RunInv(es, if i < j then i else j - 1, j - 1);
      StepInv(After(es, j - 1), es[j - 1]);
      StepCommits(After(es, j - 1), es[j - 1]);
      if i < j {
        ExtendsTransitive(After(es, i), After(es, j - 1), After(es, j));
      }
    }
    ExtendsSelf(After(es, j));
  }

  lemma EmptyInv()
    ensures Inv(EMPTY)
  {
    assert PendingRows(map[]) == {};
    assert forall package :: PackageRows(map[], package) == {};
  }

  lemma ExtendsSelf(w: World)
    ensures Extends(w, w)
  {
  }

  lemma ExtendsTransitive(u: World, v: World, w: World)
    requires Extends(u, v) && Extends(v, w)
    ensures Extends(u, w)
  {
  }

  /** An acknowledgement is only ever given for a record that is exactly a committed version of its row, in that
      session's own binding, and it stays one forever. */
  lemma AcknowledgedWasCommitted(es: seq<Event>, i: nat, j: nat, sid: nat, k: nat)
    requires i <= j <= |es| && sid < |After(es, i).sessions| && k < |After(es, i).sessions[sid].acks|
    ensures var ack := After(es, i).sessions[sid].acks[k];
            && InChain(After(es, i).chains, ack.record) && InChain(After(es, j).chains, ack.record)
            && ack.record.binding == After(es, i).sessions[sid].binding
  {
    hide Step, OpPlanned, ExactPostcondition, Capacity, ChainsOk;
    RunInv(es, i, j);
    var s := After(es, i).sessions[sid];
    assert Shape(s) && Facts(After(es, i).chains, s);
  }

  /** Every reachable table keeps the pending limits and a gap-free version chain per row. */
  lemma ReachableTable(es: seq<Event>, i: nat)
    requires i <= |es|
    ensures |PendingRows(After(es, i).chains)| <= MAX_PENDING
    ensures forall package :: |PackageRows(After(es, i).chains, package)| <= MAX_PACKAGE_PENDING
    ensures ChainsOk(After(es, i).chains)
  {
    hide Step, ChainsOk, PendingRows, PackageRows;
    RunInv(es, i, i);
  }

  /** Callbacks: at most one per operation, never revised, and exactly one for every operation of a closed domain; a
      session that ended an operation in error starts no further one. */
  lemma CallbacksAndSealing(es: seq<Event>, i: nat, j: nat, sid: nat, k: nat)
    requires i <= j <= |es| && sid < |After(es, i).sessions| && k < |After(es, i).sessions[sid].ops|
    ensures var s, w := After(es, i).sessions[sid], After(es, j);
            && sid < |w.sessions| && k < |w.sessions[sid].ops| && |s.ops[k].callbacks| <= 1
            && (s.ops[k].callbacks != [] ==> w.sessions[sid].ops[k].callbacks == s.ops[k].callbacks)
            && (s.closed ==> |s.ops[k].callbacks| == 1)
            && (s.ops[k].callbacks != [] && s.ops[k].callbacks[0].Err? ==> s.sealed && |w.sessions[sid].ops| == |s.ops|)
  {
    hide Step, OpPlanned, ExactPostcondition, Capacity, ChainsOk, Facts, AcksOrdered, ValidBinding;
    RunInv(es, i, j);
    var s, t := After(es, i).sessions[sid], After(es, j).sessions[sid];
    assert Shape(s) && Shape(t) && SessionLater(s, t);
  }

  /** No two transactions take a row from the same revision: of two commits to one row, the later has the greater. */
  lemma DistinctCommits(es: seq<Event>, i: nat, j: nat, r: Record, q: Record)
    requires i < j < |es| && IdOf(r.binding) == IdOf(q.binding)
    requires After(es, i + 1).chains == Append(After(es, i).chains, r)
    requires After(es, j + 1).chains == Append(After(es, j).chains, q)
    ensures r.revision < q.revision
  {
    hide Step, Capacity, Facts, Shape, ValidRecord;
    var id := IdOf(r.binding);
    RunInv(es, i + 1, j);
    RunInv(es, j, j + 1);
    var c, d := After(es, i + 1).chains[id], After(es, j + 1).chains[id];
    assert VersionOk(id, c, |c| - 1) && VersionOk(id, d, |d| - 1);
    assert c[|c| - 1] == r && d[|d| - 1] == q;
    assert |c| <= |After(es, j).chains[id]| < |d|;
  }

  // ----- a session that is alone with its dispatch id -----

  predicate Exclusive(w: World, sid: nat) {
    && sid < |w.sessions|
    && forall other :: 0 <= other < |w.sessions| && other != sid ==>
         IdOf(w.sessions[other].binding) != IdOf(w.sessions[sid].binding)
  }

  /** The row is what the session's own operations made it. */
  predicate OnlyWriter(chains: map<string, seq<Record>>, s: Session) {
    Row(chains, IdOf(s.binding)) ==
    if !HasOp(s) then None
    else if Last(s).tx == Settled(true) then Some(Last(s).expected.post) else Last(s).previous
  }

  lemma OnlyWriterKnows(chains: map<string, seq<Record>>, s: Session)
    requires ChainsOk(chains) && Shape(s) && Facts(chains, s) && OnlyWriter(chains, s) && !s.busy
    requires s.sealed ==> Last(s).callbacks[0].Ok?
    ensures Row(chains, IdOf(s.binding)) == s.acknowledged
  {
    hide ValidBinding, Learned, Room, ChainsOk, OpPlanned;
    if HasOp(s) {
      PlannedBinding(s);
      PlannedRevision(s, Last(s));
      var id, post := IdOf(s.binding), Last(s).expected.post;
      assert InChain(chains, s.acks[|s.acks| - 1].record);
      RowInChain(chains, id);
      assert Row(chains, id).value.revision >= post.revision by {
        assert InChain(chains, Row(chains, id).value);
        LastRevision(chains, id);
      }
    }
  }

  lemma LastRevision(chains: map<string, seq<Record>>, id: string)
    requires ChainsOk(chains) && id in chains
    ensures Row(chains, id).Some? && Row(chains, id).value.revision == |chains[id]|
  {
    assert VersionOk(id, chains[id], |chains[id]| - 1);
  }

  predicate SamePlan(s: Session, t: Session) {
    && t.binding == s.binding && |t.ops| == |s.ops|
    && (HasOp(s) ==> && Last(t).previous == Last(s).previous && Last(t).expected == Last(s).expected
                     && (Last(t).tx == Settled(true) <==> Last(s).tx == Settled(true)))
  }

  lemma SetOpPlan(s: Session, op: Op)
    requires HasOp(s) && op.previous == Last(s).previous && op.expected == Last(s).expected
    requires op.tx == Settled(true) <==> Last(s).tx == Settled(true)
    ensures SamePlan(s, SetOp(s, op))
  {
  }

  lemma FinishPlan(s: Session, outcome: Outcome)
    requires HasOp(s)
    ensures SamePlan(s, Finish(s, outcome))
  {
    hide SetOp;
    var op := Last(s);
    SetOpPlan(s, op.(done := true, callbacks := op.callbacks + [outcome]));
  }

  lemma RollbackPlan(s: Session, error: StoreError)
    requires HasOp(s)
    ensures SamePlan(s, Rollback(s, error))
  {
    hide Finish, SetOp;
    var op := Last(s);
    var tx := RollbackTx(op.tx);
    SetOpPlan(s, op.(tx := tx));
    FinishPlan(SetOp(s, op.(tx := tx)), Err(error));
  }

  lemma AdvancePlan(s: Session, stage: Stage)
    requires HasOp(s)
    ensures SamePlan(s, Advance(s, stage))
  {
  }

  /** An input other than a call or the server's settlement keeps the last operation's plan and commit status. */
  lemma InputKeepsPlan(s: Session, i: Input)
    requires !i.ServerSettled? && !i.Called? && (HasOp(s) ==> TxStage(Last(s)))
    ensures SamePlan(s, SessionStep(s, i))
  {
    hide SetOp, Finish, Rollback, Advance, ExactPostcondition, SamePlan;
    if i.CloseRequested? || i.DomainClosed? {
      ClosePlan(s, i);
    } else if !HasOp(s) {
      SamePlanRefl(s);
    } else {
      SamePlanRefl(s);
      forall error { RollbackPlan(s, error); }
      forall error: StoreError { FinishPlan(s, Err(error)); }
      forall stage { AdvancePlan(s, stage); }
      FinishPlan(s, Ok(Last(s).expected.post));
      match i
      case Begun(_) => if Active(s, Queued) { SetOpPlan(s, Last(s).(stage := Opened, tx := Open)); }
      case GateLocked => if Active(s, Opened) { SetOpPlan(s, Last(s).(stage := Gated, tx := Locked)); }
      case RowWritten(row) => SetOpPlan(s, Last(s).(stage := Written, written := row));
      case RowVerified(_) => if Active(s, Projected) { SetOpPlan(s, Last(s).(stage := Ready, tx := InDoubt)); }
      case CommitAnswered(_) => SetOpPlan(s, Last(s).(stage := Reading, readbackUsed := true));
      case RowRead(row) => if row.Some? { FinishPlan(s, Ok(row.value)); }
      case CallbackThrew => ThrewPlan(s);
      case _ =>
    }
  }

  lemma SamePlanRefl(s: Session)
    ensures SamePlan(s, s)
  {
  }

  lemma ThrewPlan(s: Session)
    ensures SamePlan(s, Threw(s))
  {
  }

  lemma ClosePlan(s: Session, i: Input)
    requires i.CloseRequested? || i.DomainClosed?
    ensures SamePlan(s, SessionStep(s, i))
  {
    hide Rollback;
    if HasOp(s) {
      RollbackPlan(s.(closed := true), Unavailable);
    }
  }

  /** A call keeps everything or starts an operation from the acknowledged record. */
  lemma CallPlan(s: Session, i: Input)
    requires i.Called?
    ensures var t := SessionStep(s, i);
            && t.binding == s.binding
            && (t == s || (|t.ops| == |s.ops| + 1 && Last(t).previous == s.acknowledged && Last(t).tx == NoTx
                           && !s.busy && !s.sealed))
  {
    hide Build, ExactPostcondition;
  }

  /** A resolution does nothing, aborts, or commits exactly what the operation planned. */
  lemma ResolveCases(w: World, sid: nat, commit: bool)
    requires Inv(w) && sid < |w.sessions|
    ensures var r, s := Resolved(w, sid, commit), w.sessions[sid];
            || (r.sessions == w.sessions && r.chains == w.chains)
            || (HasOp(s) && !Last(s).tx.Settled? && r.chains == w.chains
                && r.sessions == w.sessions[sid := SetOp(s, Last(s).(tx := Settled(false)))])
            || (HasOp(s) && Last(s).expected.post.binding == s.binding
                && r.chains == Append(w.chains, Last(s).expected.post)
                && r.sessions == w.sessions[sid := SetOp(s, Last(s).(tx := Settled(true)))])
  {
    hide Append, SetOp, SessionStep, Inv;
    var s := w.sessions[sid];
    SettledIs(s, true);
    SettledIs(s, false);
    if HasOp(s) && Last(s).tx == InDoubt {
      InDoubtIs(w, sid);
    }
  }

  lemma InDoubtIs(w: World, sid: nat)
    requires Inv(w) && sid < |w.sessions| && HasOp(w.sessions[sid]) && Last(w.sessions[sid]).tx == InDoubt
    ensures var s := w.sessions[sid];
            Last(s).written == Some(Last(s).expected.post) && Last(s).expected.post.binding == s.binding
  {
    hide Facts, ChainsOk, Capacity, Shape, Append, Row, InChain, OpPlanned, Holds;
    CommitChains(w.chains, w.sessions[sid]);
    PlannedBinding(w.sessions[sid]);
  }

  lemma SettledIs(s: Session, committed: bool)
    ensures HasOp(s) ==> SessionStep(s, ServerSettled(committed)) == SetOp(s, Last(s).(tx := Settled(committed)))
  {
  }

  /** Every row carries the dispatch id of some session. */
  predicate RowsOwned(w: World) {
    forall id :: id in w.chains ==> exists sid :: 0 <= sid < |w.sessions| && IdOf(w.sessions[sid].binding) == id
  }

  lemma StepRowsOwned(w: World, e: Event)
    requires Inv(w) && RowsOwned(w)
    ensures RowsOwned(Step(w, e))
  {
    hide Facts, ChainsOk, Capacity, Shape, SessionStep, Step, SessionLater;
    var v := Step(w, e);
    StepExtends(w, e);
    StepFrame(w, e);
    forall id | id in v.chains
      ensures exists sid :: 0 <= sid < |v.sessions| && IdOf(v.sessions[sid].binding) == id
    {
      if id in w.chains {
        var sid :| 0 <= sid < |w.sessions| && IdOf(w.sessions[sid].binding) == id;
        LaterBinding(w.sessions[sid], v.sessions[sid]);
      } else {
        ResolveOwner(w, e);
        LaterBinding(w.sessions[e.sid], v.sessions[e.sid]);
      }
    }
  }

  lemma LaterBinding(s: Session, t: Session)
    requires SessionLater(s, t)
    ensures t.binding == s.binding
  {
  }

  lemma ResolveOwner(w: World, e: Event)
    requires Inv(w) && Step(w, e).chains != w.chains
    ensures e.Resolve? && e.sid < |w.sessions|
    ensures forall id :: id in Step(w, e).chains && id !in w.chains ==> id == IdOf(w.sessions[e.sid].binding)
  {
    hide Inv, SessionStep, Resolved, InTx;
    StepFrame(w, e);
    if e.sid < |w.sessions| {
      ResolveCases(w, e.sid, e.commit);
    }
  }

  lemma StepOnlyWriter(w: World, e: Event, sid: nat)
    requires Inv(w) && Exclusive(w, sid) && OnlyWriter(w.chains, w.sessions[sid])
    ensures |w.sessions| <= |Step(w, e).sessions| && OnlyWriter(Step(w, e).chains, Step(w, e).sessions[sid])
  {
    hide Step, Facts, ChainsOk, Capacity, Shape, SessionStep, Resolved;
    StepFrame(w, e);
    if e.Resolve? {
      ResolveOnlyWriter(w, e.sid, e.commit, sid);
    } else if Step(w, e).sessions[sid] != w.sessions[sid] {
      hide Step, Facts, ChainsOk, Capacity, Shape, SessionStep, Resolved, OnlyWriter;
      var s := w.sessions[sid];
      var i: Input :| Step(w, e).sessions[sid] == SessionStep(s, i) && !i.ServerSettled?;
      InputOnlyWriter(w.chains, s, i);
    }
  }

  lemma InputOnlyWriter(chains: map<string, seq<Record>>, s: Session, i: Input)
    requires ChainsOk(chains) && Shape(s) && Facts(chains, s) && OnlyWriter(chains, s) && !i.ServerSettled?
    ensures OnlyWriter(chains, SessionStep(s, i))
  {
    hide SessionStep, ChainsOk, Shape, Learned, InChain, Row;
    if i.Called? {
      CallPlan(s, i);
      if !s.busy && !s.sealed {
        OnlyWriterKnows(chains, s);
      }
    } else {
      InputKeepsPlan(s, i);
    }
  }

  lemma AppendedRow(chains: map<string, seq<Record>>, r: Record, id: string)
    ensures Row(Append(chains, r), id) == if id == IdOf(r.binding) then Some(r) else Row(chains, id)
  {
  }

  lemma ResolveOnlyWriter(w: World, e: nat, commit: bool, sid: nat)
    requires Inv(w) && Exclusive(w, sid) && OnlyWriter(w.chains, w.sessions[sid])
    ensures var v := Step(w, Resolve(e, commit));
            |w.sessions| <= |v.sessions| && OnlyWriter(v.chains, v.sessions[sid])
  {
    hide Resolved, Inv, SessionStep, Row, Append, Step;
    ResolveStep(w, e, commit);
    if e < |w.sessions| {
      ResolveCases(w, e, commit);
      var s := w.sessions[e];
      if HasOp(s) {
        AppendedRow(w.chains, Last(s).expected.post, IdOf(w.sessions[sid].binding));
      }
    }
  }

  lemma ResolveStep(w: World, e: nat, commit: bool)
    ensures Step(w, Resolve(e, commit)) == if e < |w.sessions| then Resolved(w, e, commit) else w
  {
    hide Resolved;
  }

  lemma {:induction false} RunRowsOwned(es: seq<Event>, i: nat)
    requires i <= |es|
    ensures RowsOwned(After(es, i))
  {
    hide Step, Inv, RowsOwned;
    if i == 0 {
      NoRows();
    } else {
      RunRowsOwned(es, i - 1);
      RunInv(es, i - 1, i - 1);
      StepRowsOwned(After(es, i - 1), es[i - 1]);
    }
  }

  lemma NoRows()
    ensures RowsOwned(EMPTY)
  {
  }

  /** A session alone with its dispatch id: the row is always what its own operations made it. */
  lemma {:induction false} RunOnlyWriter(es: seq<Event>, i: nat, sid: nat)
    requires i <= |es| && Exclusive(After(es, i), sid)
    ensures OnlyWriter(After(es, i).chains, After(es, i).sessions[sid])
  {
    hide Step, Inv, OnlyWriter, SessionLater, RowsOwned;
    if i > 0 {
      var w, e := After(es, i - 1), es[i - 1];
      RunInv(es, i - 1, i);
      if sid < |w.sessions| {
        forall k | 0 <= k < |w.sessions|
          ensures After(es, i).sessions[k].binding == w.sessions[k].binding
        {
          LaterBinding(w.sessions[k], After(es, i).sessions[k]);
        }
        RunOnlyWriter(es, i - 1, sid);
        StepOnlyWriter(w, e, sid);
      } else {
        RunRowsOwned(es, i - 1);
        CreatedOnlyWriter(w, e, sid);
      }
    }
  }

  lemma CreatedOnlyWriter(w: World, e: Event, sid: nat)
    requires RowsOwned(w) && sid >= |w.sessions| && Exclusive(Step(w, e), sid)
    ensures OnlyWriter(Step(w, e).chains, Step(w, e).sessions[sid])
  {
    hide Step;
    CreatedFirst(w, e);
    assert forall k :: 0 <= k < |w.sessions| ==> Step(w, e).sessions[..|w.sessions|][k] == Step(w, e).sessions[k];
  }

  lemma CreatedFirst(w: World, e: Event)
    requires |Step(w, e).sessions| > |w.sessions|
    ensures |Step(w, e).sessions| == |w.sessions| + 1 && Step(w, e).chains == w.chains
    ensures Step(w, e).sessions[..|w.sessions|] == w.sessions && !HasOp(Step(w, e).sessions[|w.sessions|])
  {
    hide SessionStep, Row, PendingRows, PackageRows, WriteResult, Append;
  }

  /** A session alone with its dispatch id knows the durable row exactly whenever it is idle and unsealed; sealed, the
      row is the last acknowledged record or the result of the last operation. */
  lemma SessionKnowsRow(es: seq<Event>, i: nat, sid: nat)
    requires i <= |es| && Exclusive(After(es, i), sid)
    ensures var w := After(es, i);
            var s := w.sessions[sid];
            var row := Row(w.chains, IdOf(s.binding));
            && (!s.busy && !s.sealed ==> row == s.acknowledged)
            && (row == s.acknowledged || (HasOp(s) && row == Some(Last(s).expected.post)))
  {
    RunInv(es, i, i);
    RunOnlyWriter(es, i, sid);
    KnowsRow(After(es, i).chains, After(es, i).sessions[sid]);
  }

  lemma KnowsRow(chains: map<string, seq<Record>>, s: Session)
    requires ChainsOk(chains) && Shape(s) && Facts(chains, s) && OnlyWriter(chains, s)
    ensures var row := Row(chains, IdOf(s.binding));
            && (!s.busy && !s.sealed ==> row == s.acknowledged)
            && (row == s.acknowledged || (HasOp(s) && row == Some(Last(s).expected.post)))
  {
    hide ValidBinding, Learned, Room, ChainsOk, OpPlanned, Facts, Row;
    if !s.busy && (s.sealed ==> Last(s).callbacks[0].Ok?) {
      OnlyWriterKnows(chains, s);
    }
  }
}
