/** Obligation rows and their legal updates (dispatch_store.cpp: valid_dispatch_binding, valid_dispatch_record,
    exact_postcondition, store_timeout_ms, and the records built by prepare, arm and commit_choice). */
module DispatchRecord {
  import opened Wrappers
  import opened Context
  import Arbiter = ResponseArbiter
  import Deadlines
  import Utf8

  const MAX_VERSION: int := 0x7FFF_FFFF_FFFF_FFFF

  datatype Authorization = Prepared | Armed | Dispatched | AuthorizationUnknown | Aborted
  datatype Entry = EntryUnknown | KnownNotEntered | KnownEntered
  datatype Phase = PreparePhase | ArmPhase | AuthorizationPhase | ChoicePhase | ObservationPhase | TerminalPhase
  datatype Mode = QuickJs | Sidecar | BundledNative

  datatype StoreError = InvalidRequest | Busy | Unavailable | Uncertain | Conflict | Fenced | ExistingState

  datatype Binding = Binding(
    context: ContextData,
    wireExpiry: U64,
    mode: Mode,
    adapterBindingId: string,
    method_: string,
    sessionId: string,
    nodeId: string)

  datatype Fence = Fence(ownerEpoch: string, version: int)

  datatype Record = Record(
    binding: Binding,
    fence: Fence,
    revision: int,
    authorization: Authorization,
    choice: Option<Arbiter.Record>,
    wire: Arbiter.Wire,
    entry: Entry,
    enteredAt: Option<U64>,
    liveReceipt: Option<string>,
    projectionConfirmed: bool,
    pending: bool,
    retained: bool,
    settlementResolved: bool)

  datatype Mutation = Mutation(phase: Phase, preRevision: int, post: Record)

  predicate ValidBinding(b: Binding) {
    && ValidContext(b.context) && ValidUuid(b.adapterBindingId) && ValidMethod(b.method_)
    && Deadlines.BindingAccepts(Deadlines.Bounds(b.context.admittedAt, b.context.cutoff, b.wireExpiry))
    && 1 <= |b.nodeId| <= 256 && Utf8.Valid(b.nodeId)
    && (forall i :: 0 <= i < |b.nodeId| ==> b.nodeId[i] as int >= 0x20 && b.nodeId[i] as int != 0x7F)
    && (b.sessionId != "" ==> ValidUuid(b.sessionId) && b.context.principal.Pat?)
  }

  predicate ValidChoice(r: Record) {
    r.choice.Some? ==>
      var c := r.choice.value;
      && c.identity.dispatchId == r.binding.context.dispatchId
      && c.identity.ownerEpoch == r.binding.context.ownerEpoch
      && 0 < c.identity.version <= MAX_VERSION
      && ValidUuid(c.identity.choiceId)
      && (c.status.Some? ==> Arbiter.StatusInRange(c.status.value))
  }

  predicate ValidRecord(r: Record) {
    && ValidBinding(r.binding) && ValidUuid(r.fence.ownerEpoch)
    && 0 < r.fence.version <= MAX_VERSION && 0 < r.revision <= MAX_VERSION
    && (r.projectionConfirmed ==> r.authorization == Dispatched)
    && (!r.pending ==> r.retained && r.settlementResolved)
    && (r.liveReceipt.Some? ==> r.liveReceipt.value == r.binding.context.extension.receiptId)
    && (r.liveReceipt.None? ==> !r.pending && r.retained && r.settlementResolved)
    && (r.entry == KnownEntered <==> r.enteredAt.Some?)
    && (r.enteredAt.Some? ==> r.binding.context.admittedAt <= r.enteredAt.value < r.binding.context.cutoff)
    && ValidChoice(r)
  }

  predicate PhaseHolds(row: Record, m: Mutation) {
    match m.phase
    case PreparePhase =>
      && m.preRevision == 0 && row.authorization == Prepared && row.choice.None? && row.wire == Arbiter.NotAttempted
      && row.entry == EntryUnknown && !row.projectionConfirmed && row.pending && !row.retained
             && !row.settlementResolved
    case ArmPhase =>
      m.preRevision > 0 && row.authorization == Armed && row.choice.None? && row.pending && !row.projectionConfirmed
    case AuthorizationPhase =>
      m.preRevision > 0
      && (row.authorization == Dispatched || row.authorization == AuthorizationUnknown || row.authorization == Aborted)
    case ChoicePhase => m.preRevision > 0 && row.authorization == Dispatched && row.choice.Some?
    case ObservationPhase => m.preRevision > 0
    case TerminalPhase => m.preRevision > 0 && !row.pending && row.retained && row.settlementResolved
  }

  /** The one test an acknowledgement rests on. */
  predicate ExactPostcondition(row: Record, m: Mutation) {
    && ValidRecord(row) && ValidRecord(m.post)
    && 0 <= m.preRevision < MAX_VERSION && m.post.revision == m.preRevision + 1
    && row == m.post && PhaseHolds(row, m)
  }

  function PackageOf(r: Record): string {
    r.binding.context.extension.name
  }

  function IdOf(b: Binding): string {
    b.context.dispatchId
  }

  // ----- the records the public calls write -----

  function PreparedRecord(b: Binding): Record {
    Record(b, Fence(b.context.ownerEpoch, 1), 1, Prepared, None, Arbiter.NotAttempted, EntryUnknown, None,
           Some(b.context.extension.receiptId), false, true, false, false)
  }

  function PrepareMutation(b: Binding): Mutation {
    Mutation(PreparePhase, 0, PreparedRecord(b))
  }

  function ArmMutation(ack: Record): Mutation {
    Mutation(ArmPhase, ack.revision, ack.(authorization := Armed, revision := ack.revision + 1))
  }

  function ChoiceMutation(base: Record, choice: Arbiter.Record): Mutation {
    Mutation(ChoicePhase, base.revision, base.(choice := Some(choice), revision := base.revision + 1))
  }

  lemma BindingOwner(b: Binding)
    requires ValidBinding(b)
    ensures ValidUuid(b.context.ownerEpoch)
  {
    hide ValidUuid, ValidMethod, Utf8.Valid, RequestTarget.ValidClaim, ValidExtension;
  }

  lemma PreparePasses(b: Binding)
    requires ValidBinding(b)
    ensures ExactPostcondition(PreparedRecord(b), PrepareMutation(b))
  {
    hide ValidBinding, ValidUuid;
    BindingOwner(b);
  }

  lemma ArmPasses(ack: Record, prepared: Mutation)
    requires prepared.phase == PreparePhase && ExactPostcondition(ack, prepared)
    ensures ExactPostcondition(ArmMutation(ack).post, ArmMutation(ack))
  {
    hide ValidBinding, ValidUuid;
  }

  /** prepare on a valid binding, and arm on a prepared acknowledgement, always pass the exact test. */
  lemma PublicMutationsPass(b: Binding, ack: Record, prepared: Mutation)
    requires ValidBinding(b)
    requires prepared.phase == PreparePhase && ExactPostcondition(ack, prepared)
    ensures ExactPostcondition(PreparedRecord(b), PrepareMutation(b))
    ensures ExactPostcondition(ArmMutation(ack).post, ArmMutation(ack))
  {
    hide ExactPostcondition, ValidBinding;
    PreparePasses(b);
    ArmPasses(ack, prepared);
  }

  /** Milliseconds the database may still use: never zero, never past the deadline, and the whole remaining budget. */
  function TimeoutMs(now: U64, deadline: U64): (ms: Option<int>)
    ensures ms.Some? ==> 0 < ms.value <= 0x7FFF_FFFF && now + ms.value * 1_000_000 <= deadline
    ensures ms.Some? ==> deadline < now + (ms.value + 1) * 1_000_000
    ensures ms.None? <==> deadline < now + 1_000_000 || now + 0x8000_0000 * 1_000_000 <= deadline
  {
    if now >= deadline || deadline - now < 1_000_000 then None
    else
      var remaining := (deadline - now) / 1_000_000;
      if remaining > 0x7FFF_FFFF then None else Some(remaining)
  }
}
