/** The frames of the extension HTTP protocol (frames.hpp, frames.cpp): their values, the JSON trees they are written as
    and read from. */
module Frames {
  import opened Wrappers
  import opened Context
  import opened Headers
  import opened Limits
  import opened Preflight
  import opened FrameRecords
  import Base64
  import Decimal
  import RequestTarget

  datatype HandshakeIdentity = HandshakeIdentity(ownerEpoch: string, adapterEpoch: string, clockDomainId: string,
                                                 extension: Extension)
  datatype FrameIdentity = FrameIdentity(ownerEpoch: string, adapterEpoch: string, dispatchId: string,
                                         receiptId: string)

  datatype Request = Request(
    requestId: string,
    method_: string,
    originalPath: string,
    path: string,
    query: string,
    headers: seq<Header>,
    body: seq<Byte>)

  datatype Response = Response(status: int, headers: seq<Header>, body: seq<Byte>)

  datatype AdapterFailure =
    | HandlerFailed | ResponseInvalid | AdapterUnavailable | ResourceExhausted | ExecutionCancelled
  datatype CancelReason = Deadline | ClientGone | Shutdown | GenerationRetired
  datatype SettlementReason = Completed | Cancelled | Failed
  datatype PeerEntry = NotEntered | HasEntered

  datatype Outcome = Responded(response: Response) | Broke(failure: AdapterFailure)
  datatype Settlement = Settlement(reason: SettlementReason, entry: PeerEntry, enteredAt: Option<U64>)

  datatype Frame =
    | Hello(handshake: HandshakeIdentity)
    | HelloAck(handshake: HandshakeIdentity)
    | Call(identity: FrameIdentity, request: Request, context: ContextData)
    | Accepted(identity: FrameIdentity)
    | Entered(identity: FrameIdentity, at: U64)
    | Answer(identity: FrameIdentity, outcome: Outcome)
    | Cancel(identity: FrameIdentity, reason: CancelReason)
    | Settled(identity: FrameIdentity, settlement: Settlement)

  // ----- names -----

  function TypeName(f: Frame): string {
    match f
    case Hello(_) => "hello"
    case HelloAck(_) => "hello_ack"
    case Call(_, _, _) => "call"
    case Accepted(_) => "accepted"
    case Entered(_, _) => "entered"
    case Answer(_, _) => "result"
    case Cancel(_, _) => "cancel"
    case Settled(_, _) => "settled"
  }

  function FailureName(e: AdapterFailure): string {
    match e
    case HandlerFailed => "handler_failed"
    case ResponseInvalid => "response_invalid"
    case AdapterUnavailable => "adapter_unavailable"
    case ResourceExhausted => "resource_exhausted"
    case ExecutionCancelled => "execution_cancelled"
  }

  function ReadFailure(text: string): Option<AdapterFailure> {
    if text == "handler_failed" then Some(HandlerFailed)
    else if text == "response_invalid" then Some(ResponseInvalid)
    else if text == "adapter_unavailable" then Some(AdapterUnavailable)
    else if text == "resource_exhausted" then Some(ResourceExhausted)
    else if text == "execution_cancelled" then Some(ExecutionCancelled)
    else None
  }

  function CancelName(e: CancelReason): string {
    match e
    case Deadline => "deadline"
    case ClientGone => "client_gone"
    case Shutdown => "shutdown"
    case GenerationRetired => "generation_retired"
  }

  function ReadCancel(text: string): Option<CancelReason> {
    if text == "deadline" then Some(Deadline)
    else if text == "client_gone" then Some(ClientGone)
    else if text == "shutdown" then Some(Shutdown)
    else if text == "generation_retired" then Some(GenerationRetired)
    else None
  }

  function SettlementName(e: SettlementReason): string {
    match e
    case Completed => "completed"
    case Cancelled => "cancelled"
    case Failed => "failed"
  }

  function ReadSettlement(text: string): Option<SettlementReason> {
    if text == "completed" then Some(Completed)
    else if text == "cancelled" then Some(Cancelled)
    else if text == "failed" then Some(Failed)
    else None
  }

  function EntryName(e: PeerEntry): string {
    if e == NotEntered then "not_entered" else "entered"
  }

  function ReadEntry(text: string): Option<PeerEntry> {
    if text == "not_entered" then Some(NotEntered) else if text == "entered" then Some(HasEntered) else None
  }

  lemma NamesReadBack(a: AdapterFailure, c: CancelReason, s: SettlementReason, e: PeerEntry)
    ensures ReadFailure(FailureName(a)) == Some(a) && ReadCancel(CancelName(c)) == Some(c)
    ensures ReadSettlement(SettlementName(s)) == Some(s) && ReadEntry(EntryName(e)) == Some(e)
  {
  }

  // ----- validity -----

  predicate ValidFrameIdentity(i: FrameIdentity) {
    ValidUuid(i.ownerEpoch) && ValidUuid(i.adapterEpoch) && ValidUuid(i.dispatchId) && ValidUuid(i.receiptId)
  }

  predicate ValidHandshake(i: HandshakeIdentity) {
    ValidUuid(i.ownerEpoch) && ValidUuid(i.adapterEpoch) && ValidUuid(i.clockDomainId) && ValidExtension(i.extension)
  }

  function RequestMetadata(r: Request): nat {
    |r.requestId| + |r.method_| + |r.path| + |r.originalPath| + |r.query| + TotalBytes(r.headers)
  }

  ghost predicate ValidRequest(r: Request) {
    && |r.body| <= Base64.MAX_BODY_BYTES && ValidUuid(r.requestId) && ValidMethod(r.method_)
    && |r.originalPath| <= RequestTarget.MAX_TARGET_BYTES && |r.path| <= RequestTarget.MAX_TARGET_BYTES
    && |r.query| <= RequestTarget.MAX_TARGET_BYTES && RequestTarget.Accepts(r.originalPath, r.path, r.query)
    && ValidHeaders(r.headers)
    && (forall i :: 0 <= i < |r.headers| ==> !RequestForbidden(r.headers[i].name))
    && RequestMetadata(r) <= MAX_METADATA_BYTES
  }

  predicate ValidResponse(r: Response) {
    && 200 <= r.status <= 599 && |r.body| <= Base64.MAX_BODY_BYTES && ValidHeaders(r.headers)
    && forall i :: 0 <= i < |r.headers| ==> !ResponseForbidden(r.headers[i].name)
  }

  ghost predicate ValidCall(i: FrameIdentity, r: Request, c: ContextData) {
    && ValidRequest(r) && ValidContext(c) && r.requestId == c.dispatchId
           && RequestTarget.Matches(c.matchedPrefix, r.path)
    && i.ownerEpoch == c.ownerEpoch && i.adapterEpoch == c.adapterEpoch && i.dispatchId == c.dispatchId
    && i.receiptId == c.extension.receiptId
  }

  function ExtensionMetadata(e: Extension): nat {
    |e.packageId| + |e.name| + |e.version| + |e.artifactSha256| + |e.receiptId|
  }

  function ContextMetadata(c: ContextData): nat {
    |c.dispatchId| + |c.ownerEpoch| + |c.adapterEpoch| + |c.clockDomainId| + |Decimal.Print(c.admittedAt)|
    + |Decimal.Print(c.cutoff)| + |c.matchedPrefix|
    + (if c.principal.Pat? then 3 + |c.principal.userId| + |c.principal.patId| else 9) + ExtensionMetadata(c.extension)
  }

  function IdentityMetadata(i: FrameIdentity): nat {
    |i.ownerEpoch| + |i.adapterEpoch| + |i.dispatchId| + |i.receiptId|
  }

  /** What the frame will cost the reader in decoded metadata, known before it is written. */
  function MetadataSize(f: Frame): nat {
    |TypeName(f)| +
    match f
    case Hello(i) => |i.ownerEpoch| + |i.adapterEpoch| + |i.clockDomainId| + ExtensionMetadata(i.extension)
    case HelloAck(i) => |i.ownerEpoch| + |i.adapterEpoch| + |i.clockDomainId| + ExtensionMetadata(i.extension)
    case Call(i, r, c) => IdentityMetadata(i) + RequestMetadata(r) + ContextMetadata(c)
    case Accepted(i) => IdentityMetadata(i)
    case Entered(i, at) => IdentityMetadata(i) + |Decimal.Print(at)|
    case Answer(i, Responded(r)) => IdentityMetadata(i) + 8 + TotalBytes(r.headers)
    case Answer(i, Broke(e)) => IdentityMetadata(i) + 5 + |FailureName(e)|
    case Cancel(i, reason) => IdentityMetadata(i) + |CancelName(reason)|
    case Settled(i, s) =>
      IdentityMetadata(i) + |SettlementName(s.reason)| + |EntryName(s.entry)|
      + if s.enteredAt.Some? then |Decimal.Print(s.enteredAt.value)| else 0
  }

  /** validate_data. */
  ghost predicate ValidFrame(f: Frame) {
    && (match f
        case Hello(i) => ValidHandshake(i)
        case HelloAck(i) => ValidHandshake(i)
        case Call(i, r, c) => ValidFrameIdentity(i) && ValidCall(i, r, c)
        case Accepted(i) => ValidFrameIdentity(i)
        case Entered(i, _) => ValidFrameIdentity(i)
        case Answer(i, o) => ValidFrameIdentity(i) && (o.Responded? ==> ValidResponse(o.response))
        case Cancel(i, _) => ValidFrameIdentity(i)
        case Settled(i, s) => ValidFrameIdentity(i) && (s.entry == HasEntered <==> s.enteredAt.Some?))
    && MetadataSize(f) <= MAX_METADATA_BYTES
  }

  // ----- writing -----

  function Text(key: Key, text: string): Field {
    Field(key, Str(text))
  }

  function WriteExtension(e: Extension): Json {
    Obj([Text(PackageIdKey, e.packageId), Text(NameKey, e.name), Text(VersionKey, e.version),
         Text(ArtifactKey, e.artifactSha256), Text(ReceiptKey, e.receiptId)])
  }

  function WritePair(h: Header): Json {
    Arr([Str(h.name), Str(h.value)])
  }

  function WritePairs(headers: seq<Header>): (items: seq<Json>)
    ensures |items| == |headers| && forall i :: 0 <= i < |headers| ==> items[i] == WritePair(headers[i])
  {
    if headers == [] then [] else WritePairs(headers[..|headers| - 1]) + [WritePair(headers[|headers| - 1])]
  }

  function WriteRequest(r: Request): Json {
    Obj([Field(SchemaKey, Int(1)), Text(RequestIdKey, r.requestId), Text(MethodKey, r.method_), Text(PathKey, r.path),
         Text(OriginalPathKey, r.originalPath), Text(QueryKey, r.query), Field(HeadersKey, Arr(WritePairs(r.headers))),
         Text(BodyKey, Base64.Encode(r.body))])
  }

  function WriteResponse(r: Response): Json {
    Obj([Field(SchemaKey, Int(1)), Field(StatusKey, Int(r.status)), Field(HeadersKey, Arr(WritePairs(r.headers))),
         Text(BodyKey, Base64.Encode(r.body))])
  }

  function WritePrincipal(p: Principal): Json {
    match p
    case Anonymous => Obj([Text(KindKey, "anonymous")])
    case Pat(user, pat) => Obj([Text(KindKey, "pat"), Text(UserIdKey, user), Text(PatIdKey, pat)])
  }

  function WriteContext(c: ContextData): Json {
    Obj([Field(SchemaKey, Int(1)), Text(DispatchKey, c.dispatchId), Text(OwnerEpochKey, c.ownerEpoch),
         Text(AdapterEpochKey, c.adapterEpoch), Text(ClockDomainKey, c.clockDomainId),
         Text(AdmittedAtKey, Decimal.Print(c.admittedAt)), Text(CutoffKey, Decimal.Print(c.cutoff)),
         Text(PrefixKey, c.matchedPrefix), Field(PrincipalKey, WritePrincipal(c.principal)),
         Field(ExtensionKey, WriteExtension(c.extension))])
  }

  function WriteOutcome(o: Outcome): Json {
    match o
    case Responded(r) => Obj([Text(KindKey, "response"), Field(ResponseKey, WriteResponse(r))])
    case Broke(e) => Obj([Text(KindKey, "error"), Text(CodeKey, FailureName(e))])
  }

  function WriteSettlement(s: Settlement): Json {
    Obj([Text(ReasonKey, SettlementName(s.reason)), Text(EntryStateKey, EntryName(s.entry)),
         Field(EnteredAtKey, if s.enteredAt.Some? then Str(Decimal.Print(s.enteredAt.value)) else Null)])
  }

  function WriteCommon(name: string, i: FrameIdentity): seq<Field> {
    [Field(SchemaKey, Int(1)), Text(TypeKey, name), Text(OwnerEpochKey, i.ownerEpoch),
     Text(AdapterEpochKey, i.adapterEpoch),
     Text(DispatchKey, i.dispatchId), Text(ReceiptKey, i.receiptId)]
  }

  function WriteHandshake(name: string, i: HandshakeIdentity): seq<Field> {
    [Field(SchemaKey, Int(1)), Text(TypeKey, name), Text(OwnerEpochKey, i.ownerEpoch),
     Text(AdapterEpochKey, i.adapterEpoch),
     Text(ClockDomainKey, i.clockDomainId), Field(ExtensionKey, WriteExtension(i.extension))]
  }

  function WriteFrame(f: Frame): Json {
    match f
    case Hello(i) => Obj(WriteHandshake("hello", i))
    case HelloAck(i) => Obj(WriteHandshake("hello_ack", i))
    case Call(i, r, c) => Obj(WriteCommon("call", i)
                              + [Field(RequestKey, WriteRequest(r)), Field(ContextKey, WriteContext(c))])
    case Accepted(i) => Obj(WriteCommon("accepted", i))
    case Entered(i, at) => Obj(WriteCommon("entered", i) + [Text(EnteredAtKey, Decimal.Print(at))])
    case Answer(i, o) => Obj(WriteCommon("result", i) + [Field(OutcomeKey, WriteOutcome(o))])
    case Cancel(i, reason) => Obj(WriteCommon("cancel", i) + [Text(ReasonKey, CancelName(reason))])
    case Settled(i, s) => Obj(WriteCommon("settled", i) + [Field(SettlementKey, WriteSettlement(s))])
  }

  // ----- what is written fits the schema, and costs what was predicted -----

  /** A record fits with a given weight and node count. */
  predicate Written(role: Role, j: Json, weight: nat, nodes: nat) {
    j.Obj? && RecordFits(role, j) && FieldWeight(role, j, 0) == weight && Nodes(j) == nodes
  }

  /** Members that may be there, each with a value that fits, and none twice. */
  predicate Members(role: Role, j: Json) {
    && j.Obj? && Distinct(j)
    && forall k :: 0 <= k < |j.fields| ==>
         Allowed(role, j.fields[k].key) && Fits(role, Some(j.fields[k].key), j.fields[k].value)
  }

  predicate KeysInOrder(j: Json, required: seq<Key>) {
    j.Obj? && |j.fields| == |required| && forall k :: 0 <= k < |required| ==> j.fields[k].key == required[k]
  }

  lemma Assembled(role: Role, j: Json, required: seq<Key>, discriminator: string)
    requires Members(role, j) && KeysInOrder(j, required)
    requires Discriminator(role, j, |j.fields|) == discriminator
    requires Exact(Keys(j, |j.fields|), required) ==> Closed(role, Keys(j, |j.fields|), discriminator)
    ensures RecordFits(role, j)
  {
    hide Closed, Fits, Allowed, Discriminator;
    RecordBuilt(role, j, 0);
    ExactlyRequired(j, required);
  }

  // Extension.

  lemma ExtensionMembers(e: Extension)
    ensures Members(ExtensionRole, WriteExtension(e))
    ensures KeysInOrder(WriteExtension(e), [PackageIdKey, NameKey, VersionKey, ArtifactKey, ReceiptKey])
  {
    hide Distinct;
    ExtensionDistinct(e);
  }

  lemma ExtensionDistinct(e: Extension)
    ensures Distinct(WriteExtension(e))
  {
  }

  lemma ExtensionSums(e: Extension)
    ensures FieldWeight(ExtensionRole, WriteExtension(e), 0) == ExtensionMetadata(e) && Nodes(WriteExtension(e)) == 6
  {
    hide FieldWeight, FieldNodes;
    SumsOf(ExtensionRole, WriteExtension(e));
  }

  lemma WrittenExtension(e: Extension)
    ensures Written(ExtensionRole, WriteExtension(e), ExtensionMetadata(e), 6)
  {
    hide Members, KeysInOrder, FieldWeight, Nodes, FieldsFit, Keys, Discriminator, Exact;
    var j := WriteExtension(e);
    ExtensionMembers(e);
    ExtensionSums(e);
    Assembled(ExtensionRole, j, [PackageIdKey, NameKey, VersionKey, ArtifactKey, ReceiptKey],
              Discriminator(ExtensionRole, j, |j.fields|));
  }

  // Principal.

  lemma PrincipalMembers(p: Principal)
    ensures Members(PrincipalRole, WritePrincipal(p))
    ensures KeysInOrder(WritePrincipal(p), if p.Pat? then [KindKey, UserIdKey, PatIdKey] else [KindKey])
  {
    hide Distinct;
    PrincipalDistinct(p);
  }

  lemma PrincipalDistinct(p: Principal)
    ensures Distinct(WritePrincipal(p))
  {
  }

  lemma PrincipalSums(p: Principal)
    ensures FieldWeight(PrincipalRole, WritePrincipal(p), 0) == if p.Pat? then 3 + |p.userId| + |p.patId| else 9
    ensures Nodes(WritePrincipal(p)) == if p.Pat? then 4 else 2
  {
    hide FieldWeight, FieldNodes;
    SumsOf(PrincipalRole, WritePrincipal(p));
  }

  lemma WrittenPrincipal(p: Principal)
    ensures Written(PrincipalRole, WritePrincipal(p), if p.Pat? then 3 + |p.userId| + |p.patId| else 9,
                    if p.Pat? then 4 else 2)
  {
    hide Members, KeysInOrder, FieldWeight, Nodes, FieldsFit, Keys, Discriminator, Exact;
    var j := WritePrincipal(p);
    PrincipalMembers(p);
    PrincipalSums(p);
    DiscriminatorAt(PrincipalRole, j, 0, |j.fields|);
    Assembled(PrincipalRole, j, if p.Pat? then [KindKey, UserIdKey, PatIdKey] else [KindKey], j.fields[0].value.text);
  }

  // Headers.

  lemma WrittenPair(h: Header)
    ensures Fits(HeadersRole, None, WritePair(h)) && Weight(HeadersRole, None, WritePair(h)) == Size(h)
              && Nodes(WritePair(h)) == 3
  {
    var j := WritePair(h);
    assert ItemsFit(PairRole, j, 2) && ItemsFit(PairRole, j, 1) && ItemsFit(PairRole, j, 0);
    assert ItemWeight(PairRole, j, 2) == 0 && ItemWeight(PairRole, j, 1) == |h.value|;
    assert ItemNodes(j, 2) == 0 && ItemNodes(j, 1) == 1;
    assert ItemWeight(PairRole, j, 0) == Size(h) && ItemNodes(j, 0) == 2;
  }

  lemma {:induction false} WrittenPairs(headers: seq<Header>, i: nat)
    requires i <= |headers|
    ensures var j := Arr(WritePairs(headers));
            && ItemsFit(HeadersRole, j, i) && ItemNodes(j, i) == 3 * (|headers| - i)
            && ItemWeight(HeadersRole, j, i) + TotalBytes(headers[..i]) == TotalBytes(headers)
    decreases |headers| - i
  {
    hide Fits, Weight, Nodes;
    if i == |headers| {
      assert headers[..i] == headers;
    } else {
      WrittenPairs(headers, i + 1);
      WrittenPair(headers[i]);
      assert headers[..i + 1][..i] == headers[..i];
    }
  }

  lemma WrittenHeaders(role: Role, headers: seq<Header>)
    requires |headers| <= MAX_HEADER_PAIRS && (role == RequestRole || role == ResponseRole)
    ensures var j := Arr(WritePairs(headers));
            && Fits(role, Some(HeadersKey), j) && Weight(role, Some(HeadersKey), j) == TotalBytes(headers)
            && Nodes(j) == 1 + 3 * |headers|
  {
    WrittenPairs(headers, 0);
    assert headers[..0] == [];
  }

  // Request.

  const REQUEST_KEYS: seq<Key> :=
    [SchemaKey, RequestIdKey, MethodKey, PathKey, OriginalPathKey, QueryKey, HeadersKey, BodyKey]

  lemma RequestDistinct(r: Request)
    ensures Distinct(WriteRequest(r))
  {
    hide WritePairs, Base64.Encode;
  }

  lemma RequestMembers(r: Request)
    requires Fits(RequestRole, Some(HeadersKey), Arr(WritePairs(r.headers)))
    ensures Members(RequestRole, WriteRequest(r)) && KeysInOrder(WriteRequest(r), REQUEST_KEYS)
  {
    hide WritePairs, Base64.Encode, Distinct;
    RequestDistinct(r);
  }

  lemma RequestSums(r: Request)
    requires |r.headers| <= MAX_HEADER_PAIRS
    ensures FieldWeight(RequestRole, WriteRequest(r), 0) == RequestMetadata(r)
    ensures Nodes(WriteRequest(r)) == 9 + 3 * |r.headers|
  {
    hide FieldWeight, FieldNodes, WritePairs, TotalBytes, Base64.Encode;
    WrittenHeaders(RequestRole, r.headers);
    SumsOf(RequestRole, WriteRequest(r));
  }

  lemma WrittenRequest(r: Request)
    requires |r.headers| <= MAX_HEADER_PAIRS
    ensures Written(RequestRole, WriteRequest(r), RequestMetadata(r), 9 + 3 * |r.headers|)
  {
    hide Members, KeysInOrder, FieldWeight, Nodes, FieldsFit, Keys, Discriminator, Exact, WriteRequest, Fits, Weight,
        TotalBytes;
    var j := WriteRequest(r);
    WrittenHeaders(RequestRole, r.headers);
    RequestMembers(r);
    RequestSums(r);
    assert j.Obj? by { ObjectWritten(r); }
    Assembled(RequestRole, j, REQUEST_KEYS, Discriminator(RequestRole, j, |j.fields|));
  }

  lemma ObjectWritten(r: Request)
    ensures WriteRequest(r).Obj?
  {
  }

  // Response.

  lemma ResponseMembers(r: Response)
    requires Fits(ResponseRole, Some(HeadersKey), Arr(WritePairs(r.headers))) && 200 <= r.status <= 599
    ensures Members(ResponseRole, WriteResponse(r))
    ensures KeysInOrder(WriteResponse(r), [SchemaKey, StatusKey, HeadersKey, BodyKey])
  {
    hide WritePairs, Base64.Encode;
  }

  lemma ResponseSums(r: Response)
    requires |r.headers| <= MAX_HEADER_PAIRS
    ensures FieldWeight(ResponseRole, WriteResponse(r), 0) == TotalBytes(r.headers)
    ensures Nodes(WriteResponse(r)) == 5 + 3 * |r.headers|
  {
    hide FieldWeight, FieldNodes, WritePairs, TotalBytes, Base64.Encode;
    WrittenHeaders(ResponseRole, r.headers);
    SumsOf(ResponseRole, WriteResponse(r));
  }

  lemma WrittenResponse(r: Response)
    requires |r.headers| <= MAX_HEADER_PAIRS && 200 <= r.status <= 599
    ensures Written(ResponseRole, WriteResponse(r), TotalBytes(r.headers), 5 + 3 * |r.headers|)
  {
    hide Members, KeysInOrder, FieldWeight, Nodes, FieldsFit, Keys, Discriminator, Exact, Fits, Weight, TotalBytes;
    hide WritePairs, Base64.Encode;
    var j := WriteResponse(r);
    WrittenHeaders(ResponseRole, r.headers);
    ResponseMembers(r);
    ResponseSums(r);
    Assembled(ResponseRole, j, [SchemaKey, StatusKey, HeadersKey, BodyKey], Discriminator(ResponseRole, j, |j.fields|));
  }

  // Context.

  /** A record written under a member fits there, with the same weight. */
  lemma UnderMember(role: Role, key: Key, j: Json, weight: nat, nodes: nat)
    requires SubRole(role, Some(key)).Some? && Written(SubRole(role, Some(key)).value, j, weight, nodes)
    ensures Fits(role, Some(key), j) && Weight(role, Some(key), j) == weight && Nodes(j) == nodes
  {
  }

  const CONTEXT_KEYS: seq<Key> :=
    [SchemaKey, DispatchKey, OwnerEpochKey, AdapterEpochKey, ClockDomainKey, AdmittedAtKey, CutoffKey, PrefixKey,
     PrincipalKey, ExtensionKey]

  lemma ContextMembers(c: ContextData)
    requires Fits(ContextRole, Some(PrincipalKey), WritePrincipal(c.principal))
    requires Fits(ContextRole, Some(ExtensionKey), WriteExtension(c.extension))
    ensures Members(ContextRole, WriteContext(c)) && KeysInOrder(WriteContext(c), CONTEXT_KEYS)
  {
    hide WritePrincipal, WriteExtension, Decimal.Print, Distinct;
    ContextDistinct(c);
  }

  lemma ContextDistinct(c: ContextData)
    ensures Distinct(WriteContext(c))
  {
    hide WritePrincipal, WriteExtension, Decimal.Print;
  }

  function PrincipalNodes(p: Principal): nat {
    if p.Pat? then 4 else 2
  }

  lemma ContextSums(c: ContextData)
    requires Weight(ContextRole, Some(PrincipalKey), WritePrincipal(c.principal))
          == if c.principal.Pat? then 3 + |c.principal.userId| + |c.principal.patId| else 9
    requires Weight(ContextRole, Some(ExtensionKey), WriteExtension(c.extension)) == ExtensionMetadata(c.extension)
    requires Nodes(WritePrincipal(c.principal)) == PrincipalNodes(c.principal)
             && Nodes(WriteExtension(c.extension)) == 6
    ensures FieldWeight(ContextRole, WriteContext(c), 0) == ContextMetadata(c)
    ensures Nodes(WriteContext(c)) == 15 + PrincipalNodes(c.principal)
  {
    hide FieldWeight, FieldNodes, WritePrincipal, WriteExtension, Decimal.Print, ExtensionMetadata;
    SumsOf(ContextRole, WriteContext(c));
  }

  lemma WrittenContext(c: ContextData)
    ensures Written(ContextRole, WriteContext(c), ContextMetadata(c), 15 + PrincipalNodes(c.principal))
  {
    hide Members, KeysInOrder, FieldWeight, Nodes, FieldsFit, Keys, Discriminator, Exact, Fits, Weight, Written;
    hide WritePrincipal, WriteExtension, Decimal.Print, ContextMetadata;
    var j := WriteContext(c);
    WrittenPrincipal(c.principal);
    WrittenExtension(c.extension);
    UnderMember(ContextRole, PrincipalKey, WritePrincipal(c.principal),
                if c.principal.Pat? then 3 + |c.principal.userId| + |c.principal.patId| else 9,
                PrincipalNodes(c.principal));
    UnderMember(ContextRole, ExtensionKey, WriteExtension(c.extension), ExtensionMetadata(c.extension), 6);
    ContextMembers(c);
    ContextSums(c);
    Assembled(ContextRole, j, CONTEXT_KEYS, Discriminator(ContextRole, j, |j.fields|));
    MeansWritten(ContextRole, j, ContextMetadata(c), 15 + PrincipalNodes(c.principal));
  }

  lemma MeansWritten(role: Role, j: Json, weight: nat, nodes: nat)
    requires j.Obj? && RecordFits(role, j) && FieldWeight(role, j, 0) == weight && Nodes(j) == nodes
    ensures Written(role, j, weight, nodes)
  {
  }

  // Outcome and settlement.

  function OutcomeMetadata(o: Outcome): nat {
    match o
    case Responded(r) => 8 + TotalBytes(r.headers)
    case Broke(e) => 5 + |FailureName(e)|
  }

  function OutcomeNodes(o: Outcome): nat {
    if o.Responded? then 7 + 3 * |o.response.headers| else 3
  }

  lemma OutcomeMembers(o: Outcome)
    requires o.Responded? ==> Fits(OutcomeRole, Some(ResponseKey), WriteResponse(o.response))
    ensures Members(OutcomeRole, WriteOutcome(o))
    ensures KeysInOrder(WriteOutcome(o), if o.Responded? then [KindKey, ResponseKey] else [KindKey, CodeKey])
  {
    hide WriteResponse, FailureName;
  }

  lemma OutcomeSums(o: Outcome)
    requires o.Responded? ==>
               Weight(OutcomeRole, Some(ResponseKey), WriteResponse(o.response)) == TotalBytes(o.response.headers)
    requires o.Responded? ==> Nodes(WriteResponse(o.response)) == 5 + 3 * |o.response.headers|
    ensures FieldWeight(OutcomeRole, WriteOutcome(o), 0) == OutcomeMetadata(o)
              && Nodes(WriteOutcome(o)) == OutcomeNodes(o)
  {
    hide FieldWeight, FieldNodes, WriteResponse, TotalBytes, FailureName;
    SumsOf(OutcomeRole, WriteOutcome(o));
  }

  lemma WrittenOutcome(o: Outcome)
    requires o.Responded? ==> |o.response.headers| <= MAX_HEADER_PAIRS && 200 <= o.response.status <= 599
    ensures Written(OutcomeRole, WriteOutcome(o), OutcomeMetadata(o), OutcomeNodes(o))
  {
    hide Members, KeysInOrder, FieldWeight, Nodes, FieldsFit, Keys, Discriminator, Exact, Fits, Weight, Written;
    hide WriteResponse, FailureName, TotalBytes, OutcomeMetadata;
    var j := WriteOutcome(o);
    if o.Responded? {
      WrittenResponse(o.response);
      UnderMember(OutcomeRole, ResponseKey, WriteResponse(o.response), TotalBytes(o.response.headers),
                  5 + 3 * |o.response.headers|);
    }
    OutcomeMembers(o);
    OutcomeSums(o);
    DiscriminatorAt(OutcomeRole, j, 0, |j.fields|);
    Assembled(OutcomeRole, j, if o.Responded? then [KindKey, ResponseKey] else [KindKey, CodeKey],
              j.fields[0].value.text);
    MeansWritten(OutcomeRole, j, OutcomeMetadata(o), OutcomeNodes(o));
  }

  function SettlementMetadata(s: Settlement): nat {
    |SettlementName(s.reason)| + |EntryName(s.entry)| + if s.enteredAt.Some? then |Decimal.Print(s.enteredAt.value)|
                                                        else 0
  }

  lemma SettlementMembers(s: Settlement)
    ensures Members(SettlementRole, WriteSettlement(s))
    ensures KeysInOrder(WriteSettlement(s), [ReasonKey, EntryStateKey, EnteredAtKey])
  {
    hide SettlementName, EntryName, Decimal.Print;
  }

  lemma SettlementSums(s: Settlement)
    ensures FieldWeight(SettlementRole, WriteSettlement(s), 0) == SettlementMetadata(s)
              && Nodes(WriteSettlement(s)) == 4
  {
    hide FieldWeight, FieldNodes, SettlementName, EntryName, Decimal.Print;
    SumsOf(SettlementRole, WriteSettlement(s));
  }

  lemma WrittenSettlement(s: Settlement)
    ensures Written(SettlementRole, WriteSettlement(s), SettlementMetadata(s), 4)
  {
    hide Members, KeysInOrder, FieldWeight, Nodes, FieldsFit, Keys, Discriminator, Exact;
    hide SettlementName, EntryName, Decimal.Print;
    var j := WriteSettlement(s);
    SettlementMembers(s);
    SettlementSums(s);
    Assembled(SettlementRole, j, [ReasonKey, EntryStateKey, EnteredAtKey],
              Discriminator(SettlementRole, j, |j.fields|));
  }

  // The root record.

  predicate ExtraFits(extra: seq<Field>) {
    && |extra| <= 2 && (|extra| == 2 ==> extra[0].key != extra[1].key)
    && forall k :: 0 <= k < |extra| ==>
         Allowed(RootRole, extra[k].key) && extra[k].key !in COMMON
             && Fits(RootRole, Some(extra[k].key), extra[k].value)
  }

  lemma CommonDistinct(name: string, i: FrameIdentity)
    ensures Distinct(Obj(WriteCommon(name, i)))
  {
  }

  lemma CommonMembers(name: string, i: FrameIdentity)
    ensures Members(RootRole, Obj(WriteCommon(name, i))) && KeysInOrder(Obj(WriteCommon(name, i)), COMMON)
  {
    hide Distinct;
    CommonDistinct(name, i);
  }

  lemma RootMembers(name: string, i: FrameIdentity, extra: seq<Field>)
    requires ExtraFits(extra)
    ensures Members(RootRole, Obj(WriteCommon(name, i) + extra))
  {
    hide Fits, Allowed, WriteCommon;
    CommonMembers(name, i);
    var common := Obj(WriteCommon(name, i));
    var j := Obj(WriteCommon(name, i) + extra);
    assert |common.fields| == 6;
    forall a, b | 0 <= a < b < |j.fields|
      ensures j.fields[a].key != j.fields[b].key
    {
      if a < 6 <= b {
        assert common.fields[a].key == COMMON[a] && COMMON[a] in COMMON;
      }
    }
    forall k | 0 <= k < |j.fields|
      ensures Allowed(RootRole, j.fields[k].key) && Fits(RootRole, Some(j.fields[k].key), j.fields[k].value)
    {
      assert k < 6 ==> j.fields[k] == common.fields[k];
    }
  }

  function ExtraWeight(extra: seq<Field>, k: nat): nat {
    if k < |extra| then Weight(RootRole, Some(extra[k].key), extra[k].value) else 0
  }

  function ExtraNodes(extra: seq<Field>, k: nat): nat {
    if k < |extra| then Nodes(extra[k].value) else 0
  }

  lemma RootSums(name: string, i: FrameIdentity, extra: seq<Field>)
    requires |extra| <= 2
    ensures var j := Obj(WriteCommon(name, i) + extra);
            && FieldWeight(RootRole, j, 0) == |name| + IdentityMetadata(i) + ExtraWeight(extra, 0)
                   + ExtraWeight(extra, 1)
            && Nodes(j) == 7 + ExtraNodes(extra, 0) + ExtraNodes(extra, 1)
  {
    hide FieldWeight, FieldNodes;
    var j := Obj(WriteCommon(name, i) + extra);
    SumsOf(RootRole, j);
  }

  lemma WrittenRoot(name: string, i: FrameIdentity, extra: seq<Field>, keys: seq<Key>)
    requires ExtraFits(extra) && RootKeys(name) == Some(COMMON + keys)
    requires |extra| == |keys| && forall k :: 0 <= k < |keys| ==> extra[k].key == keys[k]
    ensures RecordFits(RootRole, Obj(WriteCommon(name, i) + extra))
  {
    hide Members, FieldsFit, Keys, Discriminator, Exact, Fits, Allowed, RootKeys;
    var j := Obj(WriteCommon(name, i) + extra);
    RootMembers(name, i, extra);
    CommonMembers(name, i);
    assert KeysInOrder(j, COMMON + keys);
    assert forall k :: 1 < k < |j.fields| ==> j.fields[k].key != TypeKey by { hide Members; TypeOnce(name, i, extra); }
    DiscriminatorAt(RootRole, j, 1, |j.fields|);
    Assembled(RootRole, j, COMMON + keys, name);
  }

  lemma TypeOnce(name: string, i: FrameIdentity, extra: seq<Field>)
    requires Members(RootRole, Obj(WriteCommon(name, i) + extra))
    ensures var j := Obj(WriteCommon(name, i) + extra); forall k :: 1 < k < |j.fields| ==> j.fields[k].key != TypeKey
  {
    hide Fits, Allowed;
    var j := Obj(WriteCommon(name, i) + extra);
    assert j.fields[1].key == TypeKey;
  }

  const HANDSHAKE_KEYS: seq<Key> := [SchemaKey, TypeKey, OwnerEpochKey, AdapterEpochKey, ClockDomainKey, ExtensionKey]

  lemma HandshakeDistinct(name: string, i: HandshakeIdentity)
    ensures Distinct(Obj(WriteHandshake(name, i)))
  {
    hide WriteExtension;
  }

  lemma HandshakeMembers(name: string, i: HandshakeIdentity)
    requires Fits(RootRole, Some(ExtensionKey), WriteExtension(i.extension))
    ensures Members(RootRole, Obj(WriteHandshake(name, i))) && KeysInOrder(Obj(WriteHandshake(name, i)), HANDSHAKE_KEYS)
  {
    hide WriteExtension, Distinct;
    HandshakeDistinct(name, i);
  }

  lemma HandshakeSums(name: string, i: HandshakeIdentity)
    requires Weight(RootRole, Some(ExtensionKey), WriteExtension(i.extension)) == ExtensionMetadata(i.extension)
    requires Nodes(WriteExtension(i.extension)) == 6
    ensures var j := Obj(WriteHandshake(name, i));
            && FieldWeight(RootRole, j, 0)
               == |name| + |i.ownerEpoch| + |i.adapterEpoch| + |i.clockDomainId| + ExtensionMetadata(i.extension)
            && Nodes(j) == 12
  {
    hide FieldWeight, FieldNodes, WriteExtension, ExtensionMetadata;
    SumsOf(RootRole, Obj(WriteHandshake(name, i)));
  }

  lemma WrittenHandshake(name: string, i: HandshakeIdentity)
    requires name == "hello" || name == "hello_ack"
    ensures var j := Obj(WriteHandshake(name, i));
            && RecordFits(RootRole, j) && Nodes(j) == 12
            && FieldWeight(RootRole, j, 0)
               == |name| + |i.ownerEpoch| + |i.adapterEpoch| + |i.clockDomainId| + ExtensionMetadata(i.extension)
  {
    hide Members, KeysInOrder, FieldWeight, Nodes, FieldsFit, Keys, Discriminator, Exact, Fits, Weight, Written;
    hide WriteExtension, ExtensionMetadata;
    var j := Obj(WriteHandshake(name, i));
    WrittenExtension(i.extension);
    UnderMember(RootRole, ExtensionKey, WriteExtension(i.extension), ExtensionMetadata(i.extension), 6);
    HandshakeMembers(name, i);
    HandshakeSums(name, i);
    DiscriminatorAt(RootRole, j, 1, |j.fields|);
    Assembled(RootRole, j, HANDSHAKE_KEYS, name);
  }

  /** The members a frame adds to the common ones. */
  function Extra(f: Frame): seq<Field>
    requires !f.Hello? && !f.HelloAck?
  {
    match f
    case Call(_, r, c) => [Field(RequestKey, WriteRequest(r)), Field(ContextKey, WriteContext(c))]
    case Accepted(_) => []
    case Entered(_, at) => [Text(EnteredAtKey, Decimal.Print(at))]
    case Answer(_, o) => [Field(OutcomeKey, WriteOutcome(o))]
    case Cancel(_, reason) => [Text(ReasonKey, CancelName(reason))]
    case Settled(_, s) => [Field(SettlementKey, WriteSettlement(s))]
  }

  lemma WriteIsCommonAndExtra(f: Frame)
    requires !f.Hello? && !f.HelloAck?
    ensures WriteFrame(f) == Obj(WriteCommon(TypeName(f), f.identity) + Extra(f))
  {
    hide WriteRequest, WriteContext, WriteOutcome, WriteSettlement, Decimal.Print, CancelName;
    assert WriteCommon(TypeName(f), f.identity) + [] == WriteCommon(TypeName(f), f.identity);
  }

  function ExtraKeys(f: Frame): seq<Key>
    requires !f.Hello? && !f.HelloAck?
  {
    match f
    case Call(_, _, _) => [RequestKey, ContextKey]
    case Accepted(_) => []
    case Entered(_, _) => [EnteredAtKey]
    case Answer(_, _) => [OutcomeKey]
    case Cancel(_, _) => [ReasonKey]
    case Settled(_, _) => [SettlementKey]
  }

  lemma TypeKeys(f: Frame)
    requires !f.Hello? && !f.HelloAck?
    ensures RootKeys(TypeName(f)) == Some(COMMON + ExtraKeys(f))
  {
    assert COMMON + [] == COMMON;
  }

  predicate FewHeaders(f: Frame) {
    && (f.Call? ==> |f.request.headers| <= MAX_HEADER_PAIRS)
    && (f.Answer? && f.outcome.Responded? ==>
          |f.outcome.response.headers| <= MAX_HEADER_PAIRS && 200 <= f.outcome.response.status <= 599)
  }

  predicate ExtraIsWritten(f: Frame)
    requires !f.Hello? && !f.HelloAck?
  {
    && ExtraFits(Extra(f)) && KeysInOrder(Obj(Extra(f)), ExtraKeys(f))
    && |TypeName(f)| + IdentityMetadata(f.identity) + ExtraWeight(Extra(f), 0)
           + ExtraWeight(Extra(f), 1) == MetadataSize(f)
    && ExtraNodes(Extra(f), 0) + ExtraNodes(Extra(f), 1) <= 250
  }

  lemma CallExtra(f: Frame)
    requires f.Call? && FewHeaders(f)
    ensures ExtraIsWritten(f)
  {
    hide Written, WriteRequest, WriteContext, TypeName, IdentityMetadata, RequestMetadata, ContextMetadata;
    hide PrincipalNodes, Fits, Weight, Nodes;
    var r, c := f.request, f.context;
    WrittenRequest(r);
    UnderMember(RootRole, RequestKey, WriteRequest(r), RequestMetadata(r), 9 + 3 * |r.headers|);
    WrittenContext(c);
    UnderMember(RootRole, ContextKey, WriteContext(c), ContextMetadata(c), 15 + PrincipalNodes(c.principal));
    FewPrincipalNodes(c.principal);
  }

  lemma FewPrincipalNodes(p: Principal)
    ensures PrincipalNodes(p) <= 4
  {
  }

  lemma AnswerExtra(f: Frame)
    requires f.Answer? && FewHeaders(f)
    ensures ExtraIsWritten(f)
  {
    hide Written, WriteOutcome, TypeName, IdentityMetadata, TotalBytes, FailureName;
    WrittenOutcome(f.outcome);
    UnderMember(RootRole, OutcomeKey, WriteOutcome(f.outcome), OutcomeMetadata(f.outcome), OutcomeNodes(f.outcome));
  }

  lemma SettledExtra(f: Frame)
    requires f.Settled?
    ensures ExtraIsWritten(f)
  {
    hide Written, WriteSettlement, TypeName, IdentityMetadata, Decimal.Print, SettlementName, EntryName;
    WrittenSettlement(f.settlement);
    UnderMember(RootRole, SettlementKey, WriteSettlement(f.settlement), SettlementMetadata(f.settlement), 4);
  }

  /** The extra members of a valid frame fit, and weigh what MetadataSize says. */
  lemma ExtraWritten(f: Frame)
    requires !f.Hello? && !f.HelloAck? && FewHeaders(f)
    ensures ExtraIsWritten(f)
  {
    if f.Call? {
      CallExtra(f);
    } else if f.Answer? {
      AnswerExtra(f);
    } else if f.Settled? {
      SettledExtra(f);
    } else {
      hide TypeName, IdentityMetadata, Decimal.Print, CancelName;
    }
  }

  /** What a valid frame is written as is accepted by the reader's automaton, within its depth and node limits, and its
      metadata counter ends exactly at the size predicted from the frame. */
  lemma WrittenFrameIsAccepted(f: Frame)
    requires ValidFrame(f)
    ensures Schema(WriteFrame(f)) && Nodes(WriteFrame(f)) <= 257
    ensures Check(WriteFrame(f)) == Ok(State([], Nodes(WriteFrame(f)), MetadataSize(f), true))
  {
    hide RecordFits, FieldWeight, Nodes, Check, MetadataSize, ValidCall;
    FrameSums(f);
    CheckIsSchema(WriteFrame(f));
  }

  lemma HeaderCount(f: Frame)
    requires ValidFrame(f)
    ensures FewHeaders(f)
  {
  }

  lemma FrameSums(f: Frame)
    requires ValidFrame(f)
    ensures var j := WriteFrame(f);
            j.Obj? && RecordFits(RootRole, j) && FieldWeight(RootRole, j, 0) == MetadataSize(f) && Nodes(j) <= 257
  {
    hide RecordFits, FieldWeight, Nodes, ValidFrame, ExtraFits, RootKeys, ExtraWeight, ExtraNodes, Extra;
    if f.Hello? || f.HelloAck? {
      WrittenHandshake(TypeName(f), f.handshake);
    } else {
      HeaderCount(f);
      WriteIsCommonAndExtra(f);
      TypeKeys(f);
      ExtraWritten(f);
      FewExtra(Extra(f));
      WrittenRoot(TypeName(f), f.identity, Extra(f), ExtraKeys(f));
      RootSums(TypeName(f), f.identity, Extra(f));
    }
  }

  lemma FewExtra(extra: seq<Field>)
    requires ExtraFits(extra)
    ensures |extra| <= 2
  {
  }
}
