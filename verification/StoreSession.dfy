/** The dispatch-store session in the source's own form: one object whose fields the driver callbacks update
    (dispatch_store.cpp: DispatchStoreSession::State, its Operation, and mutate), over the database domain it belongs
    to. Every callback is proved to be the step of the pure session that the store's theorems are about, to keep the
    session well formed, and to take nothing back: no callback runs twice, no second readback is made, a seal stays. */
module StoreSession {
  import opened Wrappers
  import opened DispatchRecord
  import Limits
  import Store = DispatchStore

  // ----- what a well-formed session gives its callers -----

  lemma OpenOperation(s: Store.Session)
    requires Store.Shape(s)
    ensures s.busy <==> Store.HasOp(s) && !Store.Last(s).done
    ensures s.closed ==> s.closing && !s.busy
    ensures s.busy ==> Store.Last(s).previous == s.acknowledged
    ensures s.busy ==>
              forall row :: ExactPostcondition(row, Store.Last(s).expected) <==> row == Store.Last(s).expected.post
    ensures !s.busy ==> forall k :: 0 <= k < |s.ops| ==> |s.ops[k].callbacks| == 1
  {
    hide ExactPostcondition, ValidBinding, Store.AcksOrdered;
    if s.busy {
      forall row
        ensures ExactPostcondition(row, Store.Last(s).expected) <==> row == Store.Last(s).expected.post
      {
        Store.ExactRow(row, Store.Last(s).expected);
      }
    }
  }

  /** Well formed but for an operation that is still open when the domain is marked closed. */
  ghost predicate Shaped(s: Store.Session) {
    Store.Shape(s.(closed := false)) && (s.closed ==> s.closing)
  }

  lemma ShapeIsShaped(s: Store.Session)
    requires Store.Shape(s)
    ensures Shaped(s) && (s.closing ==> Shaped(s.(closed := true)))
  {
    hide ExactPostcondition, ValidBinding;
  }

  lemma FinishShaped(s: Store.Session, outcome: Store.Outcome)
    requires Shaped(s) && Store.HasOp(s) && (outcome.Ok? ==> outcome.value == Store.Last(s).expected.post)
    ensures Store.Shape(Store.Finish(s, outcome)) && Store.SessionLater(s, Store.Finish(s, outcome))
    ensures !Store.Finish(s, outcome).busy
  {
    hide Store.Shape, Store.SessionLater, Store.Finish;
    var unclosed := s.(closed := false);
    Store.FinishShape(unclosed, outcome);
    Store.FinishLater(unclosed, outcome);
    FinishIsSame(s, outcome);
    ClosedShape(Store.Finish(unclosed, outcome), s.closed);
    ClosedLater(unclosed, Store.Finish(unclosed, outcome), s.closed);
  }

  lemma FinishIsSame(s: Store.Session, outcome: Store.Outcome)
    requires Store.HasOp(s)
    ensures Store.Finish(s, outcome) == Store.Finish(s.(closed := false), outcome).(closed := s.closed)
    ensures Store.Finish(s, outcome).closing == s.closing
  {
    hide Store.Finish;
    var t := s.(closed := false);
    Store.FinishClosed(s, outcome);
    if s.closed {
      Store.FinishClosed(t, outcome);
      assert t.(closed := true) == s;
    } else {
      assert t == s;
      FinishOpen(s, outcome);
    }
  }

  lemma FinishOpen(s: Store.Session, outcome: Store.Outcome)
    requires Store.HasOp(s)
    ensures Store.Finish(s, outcome).closed == s.closed
  {
  }

  lemma FinishFields(s: Store.Session, outcome: Store.Outcome)
    requires Store.HasOp(s)
    ensures Store.Last(s).done ==> Store.Finish(s, outcome) == s
    ensures !Store.Last(s).done ==>
              var op := Store.Last(s);
              var ended := op.(done := true, callbacks := op.callbacks + [outcome]);
              Store.Finish(s, outcome) ==
              Store.Session(s.binding, if outcome.Ok? then Some(outcome.value) else s.acknowledged, false,
                            s.sealed || outcome.Err?, s.closing, s.closed, s.hasReader, s.callbackFailure,
                            Store.SetOp(s, ended).ops,
                            if outcome.Ok? then s.acks + [Store.Ack(op.expected.phase, outcome.value)] else s.acks)
  {
  }

  lemma ClosedShape(s: Store.Session, closed: bool)
    requires Store.Shape(s) && !s.busy && (closed ==> s.closing)
    ensures Store.Shape(s.(closed := closed))
  {
    hide ExactPostcondition, ValidBinding;
  }

  lemma ClosedLater(s: Store.Session, t: Store.Session, closed: bool)
    requires Store.SessionLater(s, t)
    ensures Store.SessionLater(s.(closed := closed), t.(closed := closed))
  {
  }

  lemma NoCallbackYet(s: Store.Session)
    requires Shaped(s) && Store.HasOp(s)
    ensures !Store.Last(s).done ==> Store.Last(s).callbacks == []
  {
    hide ExactPostcondition, ValidBinding, Store.AcksOrdered, Store.OpPlanned;
    assert s.(closed := false).ops[|s.ops| - 1] == Store.Last(s);
  }

  lemma RollingShaped(s: Store.Session, tx: Store.Tx)
    requires Shaped(s) && Store.HasOp(s)
    ensures Shaped(Store.SetOp(s, Store.Last(s).(tx := tx)))
  {
    hide Store.Shape;
    Store.ProgressShape(s.(closed := false), Store.Last(s).(tx := tx));
    assert Store.SetOp(s, Store.Last(s).(tx := tx)).(closed := false)
        == Store.SetOp(s.(closed := false), Store.Last(s).(tx := tx));
  }

  // ----- the objects -----

  /** The part of the database domain that its one session shares. */
  class Database {
    const hasReader: bool
    var admission: bool
    var closing: bool
    var closed: bool
    var callbackFailure: bool
    var sessionCreated: bool

    constructor (hasReader: bool, admission: bool)
      ensures this.hasReader == hasReader && this.admission == admission
      ensures !closing && !closed && !callbackFailure && !sessionCreated
    {
      this.hasReader, this.admission := hasReader, admission;
      closing, closed, callbackFailure, sessionCreated := false, false, false, false;
    }
  }

  class Client {
    const binding: Binding
    const database: Database
    var acknowledged: Option<Record>
    var busy: bool
    var sealed: bool
    var ops: seq<Store.Op>
    var acks: seq<Store.Ack>

    function View(): Store.Session
      reads this, database
    {
      Store.Session(binding, acknowledged, busy, sealed, database.closing, database.closed, database.hasReader,
                    database.callbackFailure, ops, acks)
    }

    /** Well formed: at most one operation open, one callback per answered operation, ordered acknowledgements. */
    ghost predicate Valid()
      reads this, database
    {
      Store.Shape(View())
    }

    /** The last operation is open and this far. */
    predicate At(stage: Store.Stage)
      reads this
    {
      Running() && ops[|ops| - 1].stage == stage
    }

    predicate Running()
      reads this
    {
      |ops| > 0 && !ops[|ops| - 1].done
    }

    constructor (binding: Binding, database: Database)
      requires ValidBinding(binding) && !database.closed
      ensures this.binding == binding && this.database == database && ops == [] && acks == [] && acknowledged == None
      ensures Valid() && !busy && !sealed
    {
      hide ValidBinding, Store.OpPlanned;
      this.binding, this.database := binding, database;
      acknowledged, busy, sealed, ops, acks := None, false, false, [], [];
    }

    /** The only session of an open domain with a lease, for a binding that validates. */
    static method Create(database: Database?, binding: Binding, clock: bool) returns (r: Client?)
      modifies database
      ensures r != null <==>
                && database != null && clock && ValidBinding(binding) && !database.closing && !database.closed
                && database.admission && !old(database.sessionCreated)
      ensures r != null ==> fresh(r) && r.database == database && r.binding == binding && r.Valid() && r.ops == []
      ensures database != null ==>
                && database.sessionCreated == (old(database.sessionCreated) || r != null)
                && unchanged(database`closing, database`closed, database`admission, database`callbackFailure)
    {
      hide ValidBinding, Store.Shape;
      if database == null || !clock || !ValidBinding(binding) {
        return null;
      }
      if database.closing || database.closed || !database.admission || database.sessionCreated {
        return null;
      }
      database.sessionCreated := true;
      r := new Client(binding, database);
    }

    method SetOp(op: Store.Op)
      requires |ops| > 0
      modifies this`ops
      ensures View() == Store.SetOp(old(View()), op) && |ops| == old(|ops|) && ops[|ops| - 1] == op
    {
      ops := ops[|ops| - 1 := op];
    }

    /** The first answer of an operation: one callback for good, and an error seals. */
    method Finish(outcome: Store.Outcome)
      requires Shaped(View()) && |ops| > 0 && (outcome.Ok? ==> outcome.value == ops[|ops| - 1].expected.post)
      modifies this
      ensures View() == Store.Finish(old(View()), outcome) && Valid() && Store.SessionLater(old(View()), View())
      ensures |ops| == old(|ops|) && !busy && !Running() && ops[|ops| - 1].expected == old(ops[|ops| - 1].expected)
      ensures !old(ops[|ops| - 1].done) ==>
                && ops[|ops| - 1].callbacks == [outcome] && sealed == (old(sealed) || outcome.Err?)
                && acknowledged == if outcome.Ok? then Some(outcome.value) else old(acknowledged)
    {
      hide Store.Shape, Store.SessionLater, Shaped, Store.SetOp, Store.Finish;
      FinishShaped(View(), outcome);
      NoCallbackYet(View());
      FinishFields(View(), outcome);
      var op := ops[|ops| - 1];
      if op.done {
        return;
      }
      SetOp(op.(done := true, callbacks := op.callbacks + [outcome]));
      busy := false;
      if outcome.Err? {
        sealed := true;
      } else {
        acknowledged := Some(outcome.value);
        acks := acks + [Store.Ack(op.expected.phase, outcome.value)];
      }
    }

    /** A callback that throws, at any time after it started: the session takes no further mutation. */
    method CallbackThrew()
      requires Valid()
      modifies this`sealed, database`callbackFailure
      ensures View() == Store.SessionStep(old(View()), Store.CallbackThrew)
      ensures Valid() && Store.SessionLater(old(View()), View())
    {
      hide Store.Shape, Store.SessionLater, Store.SessionStep;
      Store.ThrewStep(View());
      Store.ThrewShape(View());
      Store.ThrewLater(View());
      if |ops| > 1 || (|ops| == 1 && ops[0].done) {
        sealed := true;
        database.callbackFailure := true;
      }
    }

    method Rollback(error: StoreError)
      requires Shaped(View()) && |ops| > 0
      modifies this
      ensures View() == Store.Rollback(old(View()), error) && Valid()
      ensures |ops| == old(|ops|) && !busy && !Running() && ops[|ops| - 1].expected == old(ops[|ops| - 1].expected)
      ensures !old(ops[|ops| - 1].done) ==>
                ops[|ops| - 1].callbacks == [Err(error)] && sealed && acknowledged == old(acknowledged)
    {
      hide Store.Shape, Store.SessionLater, Store.Finish, Shaped;
      var op := ops[|ops| - 1];
      if op.tx == Store.Open {
        op := op.(tx := Store.Rolling(false));
      } else if op.tx == Store.Locked {
        op := op.(tx := Store.Rolling(true));
      }
      RollingShaped(View(), op.tx);
      SetOp(op);
      Finish(Err(error));
    }

    /** The entry checks in order; each refusal reports its own error and leaves the session as it was. */
    method Mutate(call: Store.Call, charged: bool) returns (refused: Option<StoreError>)
      requires Valid()
      modifies this`busy, this`ops
      ensures View() == Store.SessionStep(old(View()), Store.Called(call, charged))
      ensures Valid() && Store.SessionLater(old(View()), View())
      ensures refused.Some? <==> View() == old(View())
      ensures old(Store.Build(View(), call)).Ok? ==>
                var m := old(Store.Build(View(), call)).value;
                refused ==
                if old(sealed) then Some(Unavailable)
                else if old(busy) then Some(Busy)
                else if !old(Fitting(m)) then Some(InvalidRequest)
                else if database.closing || database.closed then Some(Unavailable)
                else if old(|ops|) >= Limits.MAX_OPERATIONS || !charged then Some(Busy)
                else None
    {
      hide Store.Shape, Store.SessionLater, ExactPostcondition;
      Store.SessionStepShape(View(), Store.Called(call, charged));
      Store.StepSessionLater(View(), Store.Called(call, charged));
      var built := Store.Build(View(), call);
      if built.Err? {
        return Some(built.error);
      }
      var m := built.value;
      if sealed {
        return Some(Unavailable);
      }
      if busy {
        return Some(Busy);
      }
      if !Fitting(m) {
        return Some(InvalidRequest);
      }
      if database.closing || database.closed {
        return Some(Unavailable);
      }
      if |ops| >= Limits.MAX_OPERATIONS {
        return Some(Busy);
      }
      if !charged {
        return Some(Busy);
      }
      ops := ops + [Store.Op(m, acknowledged, Store.Queued, Store.NoTx, None, false, false, [])];
      busy := true;
      refused := None;
    }

    /** The mutation is for this session's binding and starts from the acknowledged record. */
    predicate Fitting(m: Mutation)
      reads this
    {
      && m.post.binding == binding && ExactPostcondition(m.post, m)
      && (m.preRevision == 0 <==> acknowledged.None?)
      && (acknowledged.Some? ==> m.preRevision == acknowledged.value.revision)
    }

    method Start(acquired: bool)
      requires Valid()
      modifies this
      ensures View() == Store.SessionStep(old(View()), Store.Begun(acquired))
      ensures Valid() && Store.SessionLater(old(View()), View())
      ensures old(At(Store.Queued)) ==> (Running() <==> acquired && !database.closing)
    {
      hide Store.Shape, Store.SessionLater, Shaped, Store.Finish, Store.SetOp;
      Store.SessionStepShape(View(), Store.Begun(acquired));
      Store.StepSessionLater(View(), Store.Begun(acquired));
      OpenOperation(View());
      ShapeIsShaped(View());
      if !At(Store.Queued) {
        return;
      }
      if !acquired || database.closing {
        Finish(Err(Unavailable));
      } else {
        SetOp(ops[|ops| - 1].(stage := Store.Opened, tx := Store.Open));
      }
    }

    method LockGate()
      requires Valid()
      modifies this
      ensures View() == Store.SessionStep(old(View()), Store.GateLocked)
      ensures Valid() && Store.SessionLater(old(View()), View())
      ensures old(At(Store.Opened)) ==> (Running() <==> !database.closing)
    {
      hide Store.Shape, Store.SessionLater, Shaped, Store.Rollback, Store.SetOp;
      Store.SessionStepShape(View(), Store.GateLocked);
      Store.StepSessionLater(View(), Store.GateLocked);
      OpenOperation(View());
      ShapeIsShaped(View());
      if !At(Store.Opened) {
        return;
      }
      if database.closing {
        Rollback(Unavailable);
      } else {
        SetOp(ops[|ops| - 1].(stage := Store.Gated, tx := Store.Locked));
      }
    }

    method Inspect(row: Option<Record>)
      requires Valid()
      modifies this
      ensures View() == Store.SessionStep(old(View()), Store.RowInspected(row))
      ensures Valid() && Store.SessionLater(old(View()), View())
      ensures old(At(Store.Gated)) ==> (Running() <==> !database.closing && row == old(acknowledged))
    {
      hide Store.Shape, Store.SessionLater, Shaped, Store.Rollback, Store.SetOp;
      Store.SessionStepShape(View(), Store.RowInspected(row));
      Store.StepSessionLater(View(), Store.RowInspected(row));
      OpenOperation(View());
      ShapeIsShaped(View());
      if !At(Store.Gated) {
        return;
      }
      var op := ops[|ops| - 1];
      if database.closing {
        Rollback(Unavailable);
      } else if op.previous.None? {
        if row.Some? {
          Rollback(ExistingState);
        } else {
          SetOp(op.(stage := Store.Inspected));
        }
      } else if row.None? {
        Rollback(Conflict);
      } else if row.value.fence != op.previous.value.fence {
        Rollback(Fenced);
      } else if row.value != op.previous.value {
        Rollback(Conflict);
      } else {
        SetOp(op.(stage := Store.Cleared));
      }
    }

    method Count(total: nat, package: nat)
      requires Valid()
      modifies this
      ensures View() == Store.SessionStep(old(View()), Store.PendingCounted(total, package))
      ensures Valid() && Store.SessionLater(old(View()), View())
      ensures old(At(Store.Inspected)) ==> (Running() <==> !database.closing && total < 8 && package < 4)
    {
      hide Store.Shape, Store.SessionLater, Shaped, Store.Rollback, Store.SetOp;
      Store.SessionStepShape(View(), Store.PendingCounted(total, package));
      Store.StepSessionLater(View(), Store.PendingCounted(total, package));
      OpenOperation(View());
      ShapeIsShaped(View());
      if !At(Store.Inspected) {
        return;
      }
      if database.closing {
        Rollback(Unavailable);
      } else if total >= 8 || package >= 4 {
        Rollback(Busy);
      } else {
        SetOp(ops[|ops| - 1].(stage := Store.Counted));
      }
    }

    method CheckReceipt(ok: bool)
      requires Valid()
      modifies this
      ensures View() == Store.SessionStep(old(View()), Store.ReceiptChecked(ok))
      ensures Valid() && Store.SessionLater(old(View()), View())
      ensures old(At(Store.Counted)) ==> (Running() <==> !database.closing && ok)
    {
      hide Store.Shape, Store.SessionLater, Shaped, Store.Rollback, Store.SetOp;
      Store.SessionStepShape(View(), Store.ReceiptChecked(ok));
      Store.StepSessionLater(View(), Store.ReceiptChecked(ok));
      OpenOperation(View());
      ShapeIsShaped(View());
      if !At(Store.Counted) {
        return;
      }
      if database.closing {
        Rollback(Unavailable);
      } else if !ok {
        Rollback(Conflict);
      } else {
        SetOp(ops[|ops| - 1].(stage := Store.Cleared));
      }
    }

    method Write(row: Option<Record>)
      requires Valid()
      modifies this
      ensures View() == Store.SessionStep(old(View()), Store.RowWritten(row))
      ensures Valid() && Store.SessionLater(old(View()), View())
      ensures old(At(Store.Cleared)) ==> (Running() <==> !database.closing && row.Some?)
    {
      hide Store.Shape, Store.SessionLater, Shaped, Store.Rollback, Store.SetOp;
      Store.SessionStepShape(View(), Store.RowWritten(row));
      Store.StepSessionLater(View(), Store.RowWritten(row));
      OpenOperation(View());
      ShapeIsShaped(View());
      if !At(Store.Cleared) {
        return;
      }
      if database.closing {
        Rollback(Unavailable);
      } else if row.None? {
        Rollback(Conflict);
      } else {
        SetOp(ops[|ops| - 1].(stage := Store.Written, written := row));
      }
    }

    method Project(ok: bool)
      requires Valid()
      modifies this
      ensures View() == Store.SessionStep(old(View()), Store.AuditProjected(ok))
      ensures Valid() && Store.SessionLater(old(View()), View())
      ensures old(At(Store.Written)) ==>
                (Running() <==> ops[|ops| - 1].expected.post.projectionConfirmed ==> !database.closing && ok)
    {
      hide Store.Shape, Store.SessionLater, Shaped, Store.Rollback, Store.SetOp;
      Store.SessionStepShape(View(), Store.AuditProjected(ok));
      Store.StepSessionLater(View(), Store.AuditProjected(ok));
      OpenOperation(View());
      ShapeIsShaped(View());
      if !At(Store.Written) {
        return;
      }
      if ops[|ops| - 1].expected.post.projectionConfirmed {
        if database.closing {
          Rollback(Unavailable);
          return;
        }
        if !ok {
          Rollback(Conflict);
          return;
        }
      }
      SetOp(ops[|ops| - 1].(stage := Store.Projected));
    }

    method VerifyWritten(row: Option<Record>)
      requires Valid()
      modifies this
      ensures View() == Store.SessionStep(old(View()), Store.RowVerified(row))
      ensures Valid() && Store.SessionLater(old(View()), View())
      ensures old(At(Store.Projected)) ==>
                (Running() <==> !database.closing && row == Some(ops[|ops| - 1].expected.post))
    {
      hide Store.Shape, Store.SessionLater, Shaped, Store.Rollback, Store.SetOp, ExactPostcondition;
      Store.SessionStepShape(View(), Store.RowVerified(row));
      Store.StepSessionLater(View(), Store.RowVerified(row));
      OpenOperation(View());
      ShapeIsShaped(View());
      if !At(Store.Projected) {
        return;
      }
      if database.closing {
        Rollback(Unavailable);
      } else if row.None? || !ExactPostcondition(row.value, ops[|ops| - 1].expected) {
        Rollback(Conflict);
      } else {
        SetOp(ops[|ops| - 1].(stage := Store.Ready, tx := Store.InDoubt));
      }
    }

    /** A negative acknowledgement is not an abort: it is resolved by at most one independent read. */
    method Committed(committed: bool)
      requires Valid()
      modifies this
      ensures View() == Store.SessionStep(old(View()), Store.CommitAnswered(committed))
      ensures Valid() && Store.SessionLater(old(View()), View())
      ensures old(At(Store.Ready)) && committed ==>
                acknowledged == Some(ops[|ops| - 1].expected.post) && sealed == old(sealed)
      ensures old(At(Store.Ready)) && !committed ==>
                (Running() <==> database.hasReader && !database.closing && !old(ops[|ops| - 1].readbackUsed))
      ensures old(At(Store.Ready)) && Running() ==> ops[|ops| - 1].readbackUsed
    {
      hide Store.Shape, Store.SessionLater, Shaped, Store.Finish, Store.SetOp;
      Store.SessionStepShape(View(), Store.CommitAnswered(committed));
      Store.StepSessionLater(View(), Store.CommitAnswered(committed));
      OpenOperation(View());
      ShapeIsShaped(View());
      if !At(Store.Ready) {
        return;
      }
      var op := ops[|ops| - 1];
      if committed {
        Finish(Ok(op.expected.post));
      } else if database.hasReader && !database.closing && !database.closed && !op.readbackUsed {
        SetOp(op.(stage := Store.Reading, readbackUsed := true));
      } else {
        Finish(Err(Uncertain));
      }
    }

    method Readback(row: Option<Record>)
      requires Valid()
      modifies this
      ensures View() == Store.SessionStep(old(View()), Store.RowRead(row))
      ensures Valid() && Store.SessionLater(old(View()), View())
      ensures old(At(Store.Reading)) ==>
                if row == Some(ops[|ops| - 1].expected.post) then acknowledged == row
                else sealed && acknowledged == old(acknowledged)
    {
      hide Store.Shape, Store.SessionLater, Shaped, Store.Finish, ExactPostcondition;
      Store.SessionStepShape(View(), Store.RowRead(row));
      Store.StepSessionLater(View(), Store.RowRead(row));
      OpenOperation(View());
      ShapeIsShaped(View());
      if !At(Store.Reading) {
        return;
      }
      if row.None? || !ExactPostcondition(row.value, ops[|ops| - 1].expected) {
        Finish(Err(Uncertain));
      } else {
        Finish(Ok(row.value));
      }
    }

    method Fail()
      requires Valid()
      modifies this
      ensures View() == Store.SessionStep(old(View()), Store.Failed)
      ensures Valid() && Store.SessionLater(old(View()), View())
    {
      hide Store.Shape, Store.SessionLater, Shaped, Store.Rollback;
      Store.SessionStepShape(View(), Store.Failed);
      Store.StepSessionLater(View(), Store.Failed);
      OpenOperation(View());
      ShapeIsShaped(View());
      if |ops| > 0 && !ops[|ops| - 1].done {
        Rollback(Uncertain);
      }
    }

    /** The domain's close, once its native clients are really closed: every unanswered operation is completed. */
    method DomainClosed()
      requires Valid()
      modifies this, database
      ensures View() == Store.SessionStep(old(View()), Store.DomainClosed)
      ensures Valid() && Store.SessionLater(old(View()), View())
      ensures database.closing ==> !busy && forall k :: 0 <= k < |ops| ==> |ops[k].callbacks| == 1
    {
      hide Store.Shape, Store.SessionLater, Shaped, Store.Rollback;
      Store.SessionStepShape(View(), Store.DomainClosed);
      Store.StepSessionLater(View(), Store.DomainClosed);
      OpenOperation(View());
      ShapeIsShaped(View());
      if !database.closing {
        return;
      }
      database.closed := true;
      if |ops| > 0 {
        Rollback(Unavailable);
        OpenOperation(View());
      }
    }
  }
}
