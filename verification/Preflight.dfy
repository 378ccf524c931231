/** The schema automaton of the frame reader (frames.cpp: allowed, Preflight).  It sees a JSON document as a stream of
    parser events before any tree exists, keeps a stack of closed records, and counts nodes and decoded
    metadata bytes. */
module Preflight {
  import opened Wrappers
  import opened Limits

  const MAX_NODES: nat := 1024
  const MAX_DEPTH: nat := 8
  const MAX_METADATA_BYTES: nat := 65536

  /** The member names of the closed records; any other spelling is `OtherKey`. */
  datatype Key =
    | SchemaKey | TypeKey | OwnerEpochKey | AdapterEpochKey | ClockDomainKey | ExtensionKey | DispatchKey | ReceiptKey
    | RequestKey | ContextKey | EnteredAtKey | OutcomeKey | ReasonKey | SettlementKey
    | RequestIdKey | MethodKey | PathKey | OriginalPathKey | QueryKey | HeadersKey | BodyKey | StatusKey
    | AdmittedAtKey | CutoffKey | PrefixKey | PrincipalKey | KindKey | UserIdKey | PatIdKey
    | PackageIdKey | NameKey | VersionKey | ArtifactKey | ResponseKey | CodeKey | EntryStateKey
    | OtherKey(text: string)

  datatype Field = Field(key: Key, value: Json)

  datatype Json =
    | Null
    | Bool(truth: bool)
    | Int(number: int)
    | Float
    | Str(text: string)
    | Arr(items: seq<Json>)
    | Obj(fields: seq<Field>)

  datatype Sax =
    | SeeNull | SeeBool | SeeInt(number: int) | SeeFloat | SeeString(text: string)
    | StartObject | SeeKey(key: Key) | EndObject | StartArray | EndArray

  // ----- a document as events -----

  function Events(j: Json): seq<Sax>
    decreases j
  {
    match j
    case Null => [SeeNull]
    case Bool(_) => [SeeBool]
    case Int(n) => [SeeInt(n)]
    case Float => [SeeFloat]
    case Str(text) => [SeeString(text)]
    case Arr(_) => [StartArray] + ItemEvents(j, 0)
    case Obj(_) => [StartObject] + FieldEvents(j, 0)
  }

  /** The events from item `i` of an array to its end. */
  function ItemEvents(j: Json, i: nat): seq<Sax>
    requires j.Arr? && i <= |j.items|
    decreases j, |j.items| - i + 1
  {
    if i == |j.items| then [EndArray] else Events(j.items[i]) + ItemEvents(j, i + 1)
  }

  function FieldEvents(j: Json, i: nat): seq<Sax>
    requires j.Obj? && i <= |j.fields|
    decreases j, |j.fields| - i + 1
  {
    if i == |j.fields| then [EndObject]
    else [SeeKey(j.fields[i].key)] + Events(j.fields[i].value) + FieldEvents(j, i + 1)
  }

  // ----- the automaton -----

  datatype Role = RootRole | RequestRole | ResponseRole | ContextRole | PrincipalRole | ExtensionRole | OutcomeRole
                | SettlementRole | HeadersRole | PairRole

  datatype Scope = Scope(role: Role, keys: seq<Key>, key: Option<Key>, discriminator: string, count: nat)

  datatype State = State(stack: seq<Scope>, nodes: nat, metadata: nat, rootSeen: bool)

  type Verdict = Result<State, CodecError>

  predicate Allowed(role: Role, key: Key) {
    match role
    case RootRole =>
      key in {SchemaKey, TypeKey, OwnerEpochKey, AdapterEpochKey, ClockDomainKey, ExtensionKey, DispatchKey, ReceiptKey,
              RequestKey, ContextKey, EnteredAtKey, OutcomeKey, ReasonKey, SettlementKey}
    case RequestRole =>
      key in {SchemaKey, RequestIdKey, MethodKey, PathKey, OriginalPathKey, QueryKey, HeadersKey, BodyKey}
    case ResponseRole => key in {SchemaKey, StatusKey, HeadersKey, BodyKey}
    case ContextRole =>
      key in {SchemaKey, DispatchKey, OwnerEpochKey, AdapterEpochKey, ClockDomainKey, AdmittedAtKey, CutoffKey,
              PrefixKey,
              PrincipalKey, ExtensionKey}
    case PrincipalRole => key in {KindKey, UserIdKey, PatIdKey}
    case ExtensionRole => key in {PackageIdKey, NameKey, VersionKey, ArtifactKey, ReceiptKey}
    case OutcomeRole => key in {KindKey, ResponseKey, CodeKey}
    case SettlementRole => key in {ReasonKey, EntryStateKey, EnteredAtKey}
    case _ => false
  }

  predicate Exact(keys: seq<Key>, fields: seq<Key>) {
    |keys| == |fields| && forall i :: 0 <= i < |fields| ==> fields[i] in keys
  }

  const COMMON: seq<Key> := [SchemaKey, TypeKey, OwnerEpochKey, AdapterEpochKey, DispatchKey, ReceiptKey]

  /** The members a root record of each type has, and no others. */
  function RootKeys(discriminator: string): Option<seq<Key>> {
    if discriminator == "hello" || discriminator == "hello_ack"
    then Some([SchemaKey, TypeKey, OwnerEpochKey, AdapterEpochKey, ClockDomainKey, ExtensionKey])
    else if discriminator == "call" then Some(COMMON + [RequestKey, ContextKey])
    else if discriminator == "accepted" then Some(COMMON)
    else if discriminator == "entered" then Some(COMMON + [EnteredAtKey])
    else if discriminator == "result" then Some(COMMON + [OutcomeKey])
    else if discriminator == "cancel" then Some(COMMON + [ReasonKey])
    else if discriminator == "settled" then Some(COMMON + [SettlementKey])
    else None
  }

  predicate Closed(role: Role, keys: seq<Key>, discriminator: string) {
    match role
    case RootRole => RootKeys(discriminator).Some? && Exact(keys, RootKeys(discriminator).value)
    case RequestRole =>
      Exact(keys, [SchemaKey, RequestIdKey, MethodKey, PathKey, OriginalPathKey, QueryKey, HeadersKey, BodyKey])
    case ResponseRole => Exact(keys, [SchemaKey, StatusKey, HeadersKey, BodyKey])
    case ContextRole =>
      Exact(keys, [SchemaKey, DispatchKey, OwnerEpochKey, AdapterEpochKey, ClockDomainKey, AdmittedAtKey, CutoffKey,
                   PrefixKey, PrincipalKey, ExtensionKey])
    case PrincipalRole =>
      if discriminator == "anonymous" then Exact(keys, [KindKey])
      else discriminator == "pat" && Exact(keys, [KindKey, UserIdKey, PatIdKey])
    case ExtensionRole => Exact(keys, [PackageIdKey, NameKey, VersionKey, ArtifactKey, ReceiptKey])
    case OutcomeRole =>
      if discriminator == "response" then Exact(keys, [KindKey, ResponseKey])
      else discriminator == "error" && Exact(keys, [KindKey, CodeKey])
    case SettlementRole => Exact(keys, [ReasonKey, EntryStateKey, EnteredAtKey])
    case _ => false
  }

  predicate MayEnd(s: Scope) {
    match s.role
    case HeadersRole => true
    case PairRole => s.count == 2
    case _ => Closed(s.role, s.keys, s.discriminator)
  }

  function SubRole(role: Role, key: Option<Key>): Option<Role> {
    if role == RootRole && key == Some(RequestKey) then Some(RequestRole)
    else if role == RootRole && key == Some(ContextKey) then Some(ContextRole)
    else if (role == RootRole || role == ContextRole) && key == Some(ExtensionKey) then Some(ExtensionRole)
    else if role == ContextRole && key == Some(PrincipalKey) then Some(PrincipalRole)
    else if role == RootRole && key == Some(OutcomeKey) then Some(OutcomeRole)
    else if role == RootRole && key == Some(SettlementKey) then Some(SettlementRole)
    else if role == OutcomeRole && key == Some(ResponseKey) then Some(ResponseRole)
    else None
  }

  predicate IsHeaders(role: Role, key: Option<Key>) {
    (role == RequestRole || role == ResponseRole) && key == Some(HeadersKey)
  }

  predicate IsBody(role: Role, key: Option<Key>) {
    (role == RequestRole || role == ResponseRole) && key == Some(BodyKey)
  }

  predicate Discriminates(role: Role, key: Option<Key>) {
    (role == RootRole && key == Some(TypeKey))
        || ((role == OutcomeRole || role == PrincipalRole) && key == Some(KindKey))
  }

  predicate IntegerFits(role: Role, key: Option<Key>, n: int) {
    if (role == RootRole || role == RequestRole || role == ResponseRole || role == ContextRole)
        && key == Some(SchemaKey)
    then n == 1
    else role == ResponseRole && key == Some(StatusKey) && 200 <= n <= 599
  }

  /** Where a string may stand: not for a record, a list or a number; in a pair it is only counted. */
  predicate TextFits(role: Role, key: Option<Key>) {
    && role != HeadersRole && key != Some(SchemaKey) && !(role == ResponseRole && key == Some(StatusKey))
    && (role == PairRole
        || key !in {Some(HeadersKey), Some(RequestKey), Some(ContextKey), Some(PrincipalKey), Some(ExtensionKey),
                    Some(OutcomeKey), Some(ResponseKey), Some(SettlementKey)})
  }

  function Top(st: State): Scope
    requires st.stack != []
  {
    st.stack[|st.stack| - 1]
  }

  function SetTop(st: State, s: Scope): State
    requires st.stack != []
  {
    st.(stack := st.stack[|st.stack| - 1 := s])
  }

  function Push(st: State, role: Role): State {
    st.(stack := st.stack + [Scope(role, [], None, "", 0)])
  }

  function Node(st: State): Verdict {
    if |st.stack| + 1 > MAX_DEPTH || st.nodes == MAX_NODES then Err(TooLarge) else Ok(st.(nodes := st.nodes + 1))
  }

  function OnString(st: State, text: string): Verdict {
    if st.stack == [] then Err(Invalid)
    else
      var s := Top(st);
      if !TextFits(s.role, s.key) || (s.role == PairRole && s.count + 1 > 2) then Err(Invalid)
      else if !IsBody(s.role, s.key) && st.metadata + |text| > MAX_METADATA_BYTES then Err(TooLarge)
      else
        var counted := if s.role == PairRole then s.(count := s.count + 1) else s;
        var told := if Discriminates(s.role, s.key) then counted.(discriminator := text) else counted;
        Ok(SetTop(st.(metadata := if IsBody(s.role, s.key) then st.metadata else st.metadata + |text|), told))
  }

  function OnStartObject(st: State): Verdict {
    if st.stack == [] then if st.rootSeen then Err(Invalid) else Ok(Push(st.(rootSeen := true), RootRole))
    else
      var role := SubRole(Top(st).role, Top(st).key);
      if role.None? then Err(Invalid) else Ok(Push(st, role.value))
  }

  function OnStartArray(st: State): Verdict {
    if st.stack == [] then Err(Invalid)
    else
      var s := Top(st);
      if IsHeaders(s.role, s.key) then Ok(Push(st, HeadersRole))
      else if s.role != HeadersRole then Err(Invalid)
      else if s.count + 1 > MAX_HEADER_PAIRS then Err(TooLarge)
      else Ok(Push(SetTop(st, s.(count := s.count + 1)), PairRole))
  }

  function OnEnd(st: State): Verdict {
    if st.stack == [] || !MayEnd(Top(st)) then Err(Invalid) else Ok(st.(stack := st.stack[..|st.stack| - 1]))
  }

  function OnKey(st: State, key: Key): Verdict {
    if st.stack == [] || !Allowed(Top(st).role, key) || key in Top(st).keys then Err(Invalid)
    else Ok(SetTop(st, Top(st).(keys := Top(st).keys + [key], key := Some(key))))
  }

  function OnNull(st: State): Verdict {
    if st.stack != [] && Top(st).role == SettlementRole && Top(st).key == Some(EnteredAtKey) then Ok(st)
    else Err(Invalid)
  }

  function OnInteger(st: State, n: int): Verdict {
    if st.stack != [] && IntegerFits(Top(st).role, Top(st).key, n) then Ok(st) else Err(Invalid)
  }

  function Apply(st: State, e: Sax): Verdict {
    match e
    case SeeNull => var n := Node(st); if n.Err? then n else OnNull(n.value)
    case SeeBool => Err(Invalid)
    case SeeInt(v) => var n := Node(st); if n.Err? then n else OnInteger(n.value, v)
    case SeeFloat => Err(Invalid)
    case SeeString(text) => var n := Node(st); if n.Err? then n else OnString(n.value, text)
    case StartObject => var n := Node(st); if n.Err? then n else OnStartObject(n.value)
    case SeeKey(key) => OnKey(st, key)
    case EndObject => OnEnd(st)
    case StartArray => var n := Node(st); if n.Err? then n else OnStartArray(n.value)
    case EndArray => OnEnd(st)
  }

  function Run(r: Verdict, es: seq<Sax>): Verdict
    decreases |es|
  {
    if es == [] || r.Err? then r else Run(Apply(r.value, es[0]), es[1..])
  }

  const START := State([], 0, 0, false)

  /** The whole check of a document. */
  function Check(j: Json): Verdict {
    Run(Ok(START), Events(j))
  }

  // ----- the schema it decides, said of the tree -----

  function Nodes(j: Json): nat
    decreases j
  {
    match j
    case Arr(_) => 1 + ItemNodes(j, 0)
    case Obj(_) => 1 + FieldNodes(j, 0)
    case _ => 1
  }

  function ItemNodes(j: Json, i: nat): nat
    requires j.Arr? && i <= |j.items|
    decreases j, |j.items| - i + 1
  {
    if i == |j.items| then 0 else Nodes(j.items[i]) + ItemNodes(j, i + 1)
  }

  function FieldNodes(j: Json, i: nat): nat
    requires j.Obj? && i <= |j.fields|
    decreases j, |j.fields| - i + 1
  {
    if i == |j.fields| then 0 else Nodes(j.fields[i].value) + FieldNodes(j, i + 1)
  }

  function ItemRole(role: Role, key: Option<Key>): Role {
    if IsHeaders(role, key) then HeadersRole else PairRole
  }

  /** The decoded bytes of a value's strings, the body's not counted. */
  function Weight(role: Role, key: Option<Key>, j: Json): nat
    decreases j
  {
    match j
    case Str(text) => if IsBody(role, key) then 0 else |text|
    case Arr(_) => ItemWeight(ItemRole(role, key), j, 0)
    case Obj(_) => if SubRole(role, key).Some? then FieldWeight(SubRole(role, key).value, j, 0) else 0
    case _ => 0
  }

  function ItemWeight(role: Role, j: Json, i: nat): nat
    requires j.Arr? && i <= |j.items|
    decreases j, |j.items| - i + 1
  {
    if i == |j.items| then 0 else Weight(role, None, j.items[i]) + ItemWeight(role, j, i + 1)
  }

  function FieldWeight(role: Role, j: Json, i: nat): nat
    requires j.Obj? && i <= |j.fields|
    decreases j, |j.fields| - i + 1
  {
    if i == |j.fields| then 0 else Weight(role, Some(j.fields[i].key), j.fields[i].value) + FieldWeight(role, j, i + 1)
  }

  function Keys(j: Json, i: nat): seq<Key>
    requires j.Obj? && i <= |j.fields|
  {
    if i == 0 then [] else Keys(j, i - 1) + [j.fields[i - 1].key]
  }

  /** The text of the member that tells the variants of a record apart, among the first `i`. */
  function Discriminator(role: Role, j: Json, i: nat): string
    requires j.Obj? && i <= |j.fields|
  {
    if i == 0 then ""
    else if Discriminates(role, Some(j.fields[i - 1].key)) && j.fields[i - 1].value.Str? then j.fields[i - 1].value.text
    else Discriminator(role, j, i - 1)
  }

  /** A value that may stand under a member of a record, or in a list. */
  predicate Fits(role: Role, key: Option<Key>, j: Json)
    decreases j
  {
    match j
    case Null => role == SettlementRole && key == Some(EnteredAtKey)
    case Int(n) => IntegerFits(role, key, n)
    case Str(_) => TextFits(role, key)
    case Arr(items) =>
      if IsHeaders(role, key) then |items| <= MAX_HEADER_PAIRS && ItemsFit(HeadersRole, j, 0)
      else role == HeadersRole && |items| == 2 && ItemsFit(PairRole, j, 0)
    case Obj(_) => SubRole(role, key).Some? && RecordFits(SubRole(role, key).value, j)
    case _ => false
  }

  predicate RecordFits(role: Role, j: Json)
    requires j.Obj?
    decreases j, |j.fields| + 2
  {
    FieldsFit(role, j, 0) && Closed(role, Keys(j, |j.fields|), Discriminator(role, j, |j.fields|))
  }

  predicate ItemsFit(role: Role, j: Json, i: nat)
    requires j.Arr? && i <= |j.items|
    decreases j, |j.items| - i + 1
  {
    i == |j.items| || (Fits(role, None, j.items[i]) && ItemsFit(role, j, i + 1))
  }

  predicate FieldsFit(role: Role, j: Json, i: nat)
    requires j.Obj? && i <= |j.fields|
    decreases j, |j.fields| - i + 1
  {
    i == |j.fields|
    || (Allowed(role, j.fields[i].key) && j.fields[i].key !in Keys(j, i)
        && Fits(role, Some(j.fields[i].key), j.fields[i].value) && FieldsFit(role, j, i + 1))
  }

  /** A whole document: one root record, within the node and metadata limits.  There is no depth limit to mention. */
  predicate Schema(j: Json) {
    j.Obj? && RecordFits(RootRole, j) && Nodes(j) <= MAX_NODES && FieldWeight(RootRole, j, 0) <= MAX_METADATA_BYTES
  }

  // ----- the automaton decides exactly the schema -----

  /** How deep the stack can be when a scope of this role is on top. */
  function Depth(role: Role): nat {
    match role
    case RootRole => 1
    case HeadersRole => 4
    case PairRole => 5
    case ResponseRole => 3
    case PrincipalRole => 3
    case ExtensionRole => 3
    case _ => 2
  }

  predicate Ready(st: State) {
    && st.stack != [] && |st.stack| <= Depth(Top(st).role)
    && st.nodes <= MAX_NODES && st.metadata <= MAX_METADATA_BYTES
    && (Top(st).role == HeadersRole || Top(st).role == PairRole ==> Top(st).key.None?)
  }

  predicate Room(s: Scope) {
    (s.role == PairRole ==> s.count < 2) && (s.role == HeadersRole ==> s.count < MAX_HEADER_PAIRS)
  }

  predicate Accepts(st: State, j: Json)
    requires Ready(st)
  {
    && Fits(Top(st).role, Top(st).key, j) && Room(Top(st))
    && st.nodes + Nodes(j) <= MAX_NODES && st.metadata + Weight(Top(st).role, Top(st).key, j) <= MAX_METADATA_BYTES
  }

  function TopAfter(s: Scope, j: Json): Scope {
    if j.Str? then
      var counted := if s.role == PairRole then s.(count := s.count + 1) else s;
      if Discriminates(s.role, s.key) then counted.(discriminator := j.text) else counted
    else if j.Arr? && s.role == HeadersRole then s.(count := s.count + 1)
    else s
  }

  function Advance(st: State, j: Json): State
    requires st.stack != []
  {
    SetTop(st.(nodes := st.nodes + Nodes(j), metadata := st.metadata + Weight(Top(st).role, Top(st).key, j)),
           TopAfter(Top(st), j))
  }

  lemma {:induction false} RunConcat(r: Verdict, a: seq<Sax>, b: seq<Sax>)
    ensures Run(r, a + b) == Run(Run(r, a), b)
    decreases |a|
  {
    hide Apply;
    if a == [] {
      assert a + b == b;
    } else if r.Ok? {
      assert (a + b)[1..] == a[1..] + b;
      RunConcat(Apply(r.value, a[0]), a[1..], b);
    } else {
      RunError(r, b);
    }
  }

  lemma RunError(r: Verdict, es: seq<Sax>)
    requires r.Err?
    ensures Run(r, es) == r
  {
  }

  lemma RunOne(st: State, e: Sax, es: seq<Sax>)
    ensures Run(Ok(st), [e] + es) == Run(Apply(st, e), es)
  {
    hide Apply;
    assert ([e] + es)[1..] == es;
  }

  lemma RunSingle(st: State, e: Sax)
    ensures Run(Ok(st), [e]) == Apply(st, e)
  {
    hide Apply;
    RunOne(st, e, []);
    assert [e] + [] == [e];
  }

  lemma LeafRun(st: State, j: Json)
    requires Ready(st) && !j.Arr? && !j.Obj?
    ensures Run(Ok(st), Events(j)).Ok? <==> Accepts(st, j)
    ensures Accepts(st, j) ==> Run(Ok(st), Events(j)) == Ok(Advance(st, j))
  {
    hide Run, Accepts, Advance, Apply;
    RunSingle(st, Events(j)[0]);
    if j.Str? {
      StringRun(st, j.text);
    } else {
      ScalarRun(st, j);
    }
  }

  lemma StringRun(st: State, text: string)
    requires Ready(st)
    ensures Apply(st, SeeString(text)).Ok? <==> Accepts(st, Str(text))
    ensures Accepts(st, Str(text)) ==> Apply(st, SeeString(text)) == Ok(Advance(st, Str(text)))
  {
    hide IsBody, Discriminates;
  }

  lemma ScalarRun(st: State, j: Json)
    requires Ready(st) && !j.Arr? && !j.Obj? && !j.Str?
    ensures Apply(st, Events(j)[0]).Ok? <==> Accepts(st, j)
    ensures Accepts(st, j) ==> Apply(st, Events(j)[0]) == Ok(Advance(st, j))
  {
    hide OnString, OnStartObject, OnStartArray, OnKey, OnEnd;
    assert st.stack[|st.stack| - 1 := Top(st)] == st.stack;
  }

  lemma SubRoleDepth(role: Role, key: Option<Key>)
    requires SubRole(role, key).Some?
    ensures Depth(role) + 1 <= Depth(SubRole(role, key).value) && role != HeadersRole && role != PairRole
    ensures SubRole(role, key).value != HeadersRole && SubRole(role, key).value != PairRole
  {
  }

  lemma {:induction false} ValueRun(st: State, j: Json)
    requires Ready(st)
    ensures Run(Ok(st), Events(j)).Ok? <==> Accepts(st, j)
    ensures Accepts(st, j) ==> Run(Ok(st), Events(j)) == Ok(Advance(st, j))
    decreases j
  {
    match j
    case Arr(_) => ArrayRun(st, j);
    case Obj(_) => ObjectRun(st, j);
    case _ => LeafRun(st, j);
  }

  lemma {:induction false} ObjectRun(st: State, j: Json)
    requires Ready(st) && j.Obj?
    ensures Run(Ok(st), Events(j)).Ok? <==> Accepts(st, j)
    ensures Accepts(st, j) ==> Run(Ok(st), Events(j)) == Ok(Advance(st, j))
    decreases j, |j.fields| + 2
  {
    hide Run, FieldEvents, FieldsFit, Closed, FieldWeight, FieldNodes, Apply, Fits, Weight, Nodes;
    var role, key := Top(st).role, Top(st).key;
    ObjectMeans(role, key, j);
    StartsObject(st);
    RunOne(st, StartObject, FieldEvents(j, 0));
    var r := Apply(st, StartObject);
    if r.Err? {
      RunError(r, FieldEvents(j, 0));
    } else {
      SubRoleDepth(role, key);
      FieldsRun(r.value, j, 0);
      assert r.value.stack[..|st.stack|] == st.stack == st.stack[|st.stack| - 1 := Top(st)];
    }
  }

  lemma ObjectMeans(role: Role, key: Option<Key>, j: Json)
    requires j.Obj?
    ensures Fits(role, key, j) <==> SubRole(role, key).Some? && RecordFits(SubRole(role, key).value, j)
    ensures Nodes(j) == 1 + FieldNodes(j, 0) && Events(j) == [StartObject] + FieldEvents(j, 0)
    ensures SubRole(role, key).Some? ==> Weight(role, key, j) == FieldWeight(SubRole(role, key).value, j, 0)
  {
  }

  lemma StartsObject(st: State)
    requires Ready(st)
    ensures Apply(st, StartObject).Ok? <==> SubRole(Top(st).role, Top(st).key).Some? && st.nodes < MAX_NODES
    ensures Apply(st, StartObject).Ok? ==>
              Apply(st, StartObject) == Ok(Push(st.(nodes := st.nodes + 1), SubRole(Top(st).role, Top(st).key).value))
  {
  }

  predicate Record(role: Role) {
    role != HeadersRole && role != PairRole
  }

  /** What is left of a record: its members from `i` on and its end. */
  predicate RestFits(st: State, j: Json, i: nat)
    requires Ready(st) && j.Obj? && i <= |j.fields|
  {
    var role := Top(st).role;
    && FieldsFit(role, j, i) && Closed(role, Keys(j, |j.fields|), Discriminator(role, j, |j.fields|))
    && st.nodes + FieldNodes(j, i) <= MAX_NODES && st.metadata + FieldWeight(role, j, i) <= MAX_METADATA_BYTES
  }

  function Popped(st: State, nodes: nat, metadata: nat): State
    requires st.stack != []
  {
    State(st.stack[..|st.stack| - 1], st.nodes + nodes, st.metadata + metadata, st.rootSeen)
  }

  /** What the members from `i` on come to, one member at a time. */
  lemma MembersFrom(role: Role, j: Json, i: nat)
    requires j.Obj? && i < |j.fields|
    ensures var key, v := j.fields[i].key, j.fields[i].value;
            && (FieldsFit(role, j, i) <==>
                  Allowed(role, key) && key !in Keys(j, i) && Fits(role, Some(key), v) && FieldsFit(role, j, i + 1))
            && FieldNodes(j, i) == Nodes(v) + FieldNodes(j, i + 1)
            && FieldWeight(role, j, i) == Weight(role, Some(key), v) + FieldWeight(role, j, i + 1)
            && FieldEvents(j, i) == [SeeKey(key)] + (Events(v) + FieldEvents(j, i + 1))
  {
    hide Fits, Nodes, Weight, Events, Allowed, Keys;
  }

  lemma NoMembers(role: Role, j: Json)
    requires j.Obj?
    ensures FieldsFit(role, j, |j.fields|) && FieldNodes(j, |j.fields|) == 0 && FieldWeight(role, j, |j.fields|) == 0
    ensures FieldEvents(j, |j.fields|) == [EndObject]
  {
  }

  lemma {:induction false} FieldsRun(st: State, j: Json, i: nat)
    requires Ready(st) && j.Obj? && i <= |j.fields| && Record(Top(st).role)
    requires Top(st).keys == Keys(j, i) && Top(st).discriminator == Discriminator(Top(st).role, j, i)
    ensures Run(Ok(st), FieldEvents(j, i)).Ok? <==> RestFits(st, j, i)
    ensures RestFits(st, j, i) ==>
              Run(Ok(st), FieldEvents(j, i)) == Ok(Popped(st, FieldNodes(j, i), FieldWeight(Top(st).role, j, i)))
    decreases j, |j.fields| - i + 1
  {
    hide Run, Events, Closed, Fits, Nodes, Weight, Apply, Allowed, Advance;
    hide FieldsFit, FieldNodes, FieldWeight, FieldEvents, Keys, Discriminator;
    if i == |j.fields| {
      NoMembers(Top(st).role, j);
      RunSingle(st, EndObject);
      EndsRecord(st);
    } else {
      var key, v := j.fields[i].key, j.fields[i].value;
      var rest := FieldEvents(j, i + 1);
      MembersFrom(Top(st).role, j, i);
      RunOne(st, SeeKey(key), Events(v) + rest);
      var r := Apply(st, SeeKey(key));
      SeesKey(st, key);
      if r.Err? {
        RunError(r, Events(v) + rest);
      } else {
        RunConcat(r, Events(v), rest);
        ValueRun(r.value, v);
        if Accepts(r.value, v) {
          NextMember(st, j, i);
          FieldsRun(Advance(r.value, v), j, i + 1);
        } else {
          RunError(Run(r, Events(v)), rest);
        }
      }
    }
  }

  lemma EndsRecord(st: State)
    requires Ready(st) && Record(Top(st).role)
    ensures st.nodes <= MAX_NODES && st.metadata <= MAX_METADATA_BYTES
    ensures Apply(st, EndObject)
         == if Closed(Top(st).role, Top(st).keys, Top(st).discriminator) then Ok(Popped(st, 0, 0)) else Err(Invalid)
  {
    hide Closed;
  }

  /** A member name is taken when its record may have it and does not have it yet. */
  lemma SeesKey(st: State, key: Key)
    requires Ready(st) && Record(Top(st).role)
    ensures Apply(st, SeeKey(key)).Ok? <==> Allowed(Top(st).role, key) && key !in Top(st).keys
    ensures Apply(st, SeeKey(key)).Ok? ==>
              Apply(st, SeeKey(key)) == Ok(SetTop(st, Top(st).(keys := Top(st).keys + [key], key := Some(key))))
    ensures Apply(st, SeeKey(key)).Ok? ==>
              Ready(Apply(st, SeeKey(key)).value) && Room(Top(Apply(st, SeeKey(key)).value))
  {
    hide Allowed;
  }

  /** After a member's value the record is ready for the next one. */
  lemma NextMember(st: State, j: Json, i: nat)
    requires Ready(st) && j.Obj? && i < |j.fields| && Record(Top(st).role)
    requires Top(st).keys == Keys(j, i) && Top(st).discriminator == Discriminator(Top(st).role, j, i)
    requires var key := j.fields[i].key;
             var named := SetTop(st, Top(st).(keys := Top(st).keys + [key], key := Some(key)));
             Ready(named) && Accepts(named, j.fields[i].value)
    ensures var key, v := j.fields[i].key, j.fields[i].value;
            var named := SetTop(st, Top(st).(keys := Top(st).keys + [key], key := Some(key)));
            var next := Advance(named, v);
            && Ready(next) && Top(next).role == Top(st).role && Top(next).keys == Keys(j, i + 1)
            && Top(next).discriminator == Discriminator(Top(st).role, j, i + 1)
            && next.nodes == st.nodes + Nodes(v) && next.metadata == st.metadata + Weight(Top(st).role, Some(key), v)
            && next.rootSeen == st.rootSeen && next.stack[..|next.stack| - 1] == st.stack[..|st.stack| - 1]
  {
    hide Fits, Nodes, Weight;
  }

  lemma {:induction false} ArrayRun(st: State, j: Json)
    requires Ready(st) && j.Arr?
    ensures Run(Ok(st), Events(j)).Ok? <==> Accepts(st, j)
    ensures Accepts(st, j) ==> Run(Ok(st), Events(j)) == Ok(Advance(st, j))
    decreases j, |j.items| + 2
  {
    hide Run, ItemEvents, ItemWeight, ItemNodes, ItemsFit, Apply, Fits, Weight, Nodes, Advance;
    var role, key := Top(st).role, Top(st).key;
    ArrayMeans(role, key, j);
    StartsArray(st);
    RunOne(st, StartArray, ItemEvents(j, 0));
    var r := Apply(st, StartArray);
    if r.Err? {
      RunError(r, ItemEvents(j, 0));
    } else {
      ItemsRun(r.value, j, 0);
      ArrayAdvances(st, j, r.value);
    }
  }

  /** Leaving the list leaves its parent as `Advance` says. */
  lemma ArrayAdvances(st: State, j: Json, inside: State)
    requires Ready(st) && j.Arr? && (IsHeaders(Top(st).role, Top(st).key) || Top(st).role == HeadersRole)
    requires var counted := st.(nodes := st.nodes + 1);
             inside == if IsHeaders(Top(st).role, Top(st).key) then Push(counted, HeadersRole)
                       else Push(SetTop(counted, Top(st).(count := Top(st).count + 1)), PairRole)
    ensures Popped(inside, ItemNodes(j, 0), ItemWeight(ItemRole(Top(st).role, Top(st).key), j, 0)) == Advance(st, j)
  {
    hide ItemWeight, ItemNodes;
    assert inside.stack[..|st.stack|] == Advance(st, j).stack;
  }

  lemma ArrayMeans(role: Role, key: Option<Key>, j: Json)
    requires j.Arr?
    ensures Fits(role, key, j) <==>
            (if IsHeaders(role, key) then |j.items| <= MAX_HEADER_PAIRS && ItemsFit(HeadersRole, j, 0)
             else role == HeadersRole && |j.items| == 2 && ItemsFit(PairRole, j, 0))
    ensures Nodes(j) == 1 + ItemNodes(j, 0) && Events(j) == [StartArray] + ItemEvents(j, 0)
    ensures Weight(role, key, j) == ItemWeight(ItemRole(role, key), j, 0)
  {
  }

  lemma StartsArray(st: State)
    requires Ready(st)
    ensures var s, r := Top(st), Apply(st, StartArray);
            && (r.Ok? <==> st.nodes < MAX_NODES && (IsHeaders(s.role, s.key) || s.role == HeadersRole) && Room(s))
            && (r.Ok? && IsHeaders(s.role, s.key) ==> r == Ok(Push(st.(nodes := st.nodes + 1), HeadersRole)))
            && (r.Ok? && !IsHeaders(s.role, s.key) ==>
                  r == Ok(Push(SetTop(st.(nodes := st.nodes + 1), s.(count := s.count + 1)), PairRole)))
  {
  }

  /** What is left of a list: its items from `i` on and its end. */
  predicate ListFits(st: State, j: Json, i: nat)
    requires Ready(st) && j.Arr? && i <= |j.items|
  {
    var role := Top(st).role;
    && ItemsFit(role, j, i) && (if role == PairRole then |j.items| == 2 else |j.items| <= MAX_HEADER_PAIRS)
    && st.nodes + ItemNodes(j, i) <= MAX_NODES && st.metadata + ItemWeight(role, j, i) <= MAX_METADATA_BYTES
  }

  lemma EndsList(st: State)
    requires Ready(st) && !Record(Top(st).role)
    ensures Apply(st, EndArray)
         == if Top(st).role == PairRole ==> Top(st).count == 2 then Ok(Popped(st, 0, 0)) else Err(Invalid)
  {
  }

  /** After an item the list is ready for the next one. */
  lemma NextItem(st: State, v: Json)
    requires Ready(st) && !Record(Top(st).role) && Accepts(st, v)
    ensures var next, role := Advance(st, v), Top(st).role;
            && Ready(next) && Top(next).role == role && Top(next).count == Top(st).count + 1
            && next.nodes == st.nodes + Nodes(v) && next.metadata == st.metadata + Weight(role, None, v)
            && next.rootSeen == st.rootSeen && next.stack[..|next.stack| - 1] == st.stack[..|st.stack| - 1]
  {
    hide Nodes, Weight, ItemsFit, RecordFits;
  }

  lemma {:induction false} ItemsRun(st: State, j: Json, i: nat)
    requires Ready(st) && j.Arr? && i <= |j.items| && !Record(Top(st).role) && Top(st).count == i
    requires i <= if Top(st).role == PairRole then 2 else MAX_HEADER_PAIRS
    ensures Run(Ok(st), ItemEvents(j, i)).Ok? <==> ListFits(st, j, i)
    ensures ListFits(st, j, i) ==>
              Run(Ok(st), ItemEvents(j, i)) == Ok(Popped(st, ItemNodes(j, i), ItemWeight(Top(st).role, j, i)))
    decreases j, |j.items| - i + 1
  {
    hide Run, Events, Nodes, Weight, Fits, Apply, Advance;
    if i == |j.items| {
      RunSingle(st, EndArray);
      EndsList(st);
    } else {
      var v, rest := j.items[i], ItemEvents(j, i + 1);
      RunConcat(Ok(st), Events(v), rest);
      ValueRun(st, v);
      if Accepts(st, v) {
        NextItem(st, v);
        ItemsRun(Advance(st, v), j, i + 1);
      } else {
        RunError(Run(Ok(st), Events(v)), rest);
      }
    }
  }

  const BEGUN := State([Scope(RootRole, [], None, "", 0)], 1, 0, true)

  /** A document starts with a record or not at all. */
  lemma StartsDocument(e: Sax)
    requires !e.SeeKey? && !e.EndObject? && !e.EndArray?
    ensures e == StartObject ==> Apply(START, e) == Ok(BEGUN)
    ensures e != StartObject ==> Apply(START, e).Err?
    ensures Ready(BEGUN) && Top(BEGUN) == Scope(RootRole, [], None, "", 0)
  {
    assert [] + [Scope(RootRole, [], None, "", 0)] == [Scope(RootRole, [], None, "", 0)];
  }

  /** The automaton accepts a document exactly when it fits the schema, and its counters end at the document's node
      count and metadata size.  The depth limit never refuses anything the schema allows. */
  lemma CheckIsSchema(j: Json)
    ensures Check(j).Ok? <==> Schema(j)
    ensures Schema(j) ==> Check(j) == Ok(State([], Nodes(j), FieldWeight(RootRole, j, 0), true))
  {
    hide Run, Apply, FieldEvents, ItemEvents, FieldNodes, FieldWeight, ItemNodes, FieldsFit, Closed, Ready;
    StartsDocument(Events(j)[0]);
    if j.Obj? {
      RunOne(START, StartObject, FieldEvents(j, 0));
      FieldsRun(BEGUN, j, 0);
      assert Popped(BEGUN, FieldNodes(j, 0), FieldWeight(RootRole, j, 0)).stack == [];
    } else if j.Arr? {
      RunOne(START, StartArray, ItemEvents(j, 0));
      RunError(Apply(START, StartArray), ItemEvents(j, 0));
    } else {
      RunSingle(START, Events(j)[0]);
    }
  }

  // ----- the automaton as an object -----

  class Reader {
    var stack: seq<Scope>
    var nodes: nat
    var metadata: nat
    var rootSeen: bool
    var error: CodecError

    function View(): State
      reads this
    {
      State(stack, nodes, metadata, rootSeen)
    }

    constructor ()
      ensures View() == START && error == Invalid
    {
      stack, nodes, metadata, rootSeen, error := [], 0, 0, false, Invalid;
    }

    predicate Agrees(ok: bool, v: Verdict)
      reads this
    {
      if ok then v == Ok(View()) && error == Invalid else v == Err(error)
    }

    method CountNode() returns (ok: bool)
      requires error == Invalid
      modifies this`nodes, this`error
      ensures Agrees(ok, Node(old(View())))
    {
      if |stack| + 1 > MAX_DEPTH || nodes == MAX_NODES {
        error := TooLarge;
        return false;
      }
      nodes := nodes + 1;
      ok := true;
    }

    method PushScope(role: Role)
      modifies this`stack
      ensures View() == Push(old(View()), role)
    {
      stack := stack + [Scope(role, [], None, "", 0)];
    }

    method SawNull() returns (ok: bool)
      requires error == Invalid
      modifies this
      ensures Agrees(ok, Apply(old(View()), SeeNull))
    {
      ok := CountNode();
      if ok {
        ok := stack != [] && stack[|stack| - 1].role == SettlementRole && stack[|stack| - 1].key == Some(EnteredAtKey);
      }
    }

    method SawInteger(n: int) returns (ok: bool)
      requires error == Invalid
      modifies this
      ensures Agrees(ok, Apply(old(View()), SeeInt(n)))
    {
      ok := CountNode();
      if ok {
        ok := stack != [] && IntegerFits(stack[|stack| - 1].role, stack[|stack| - 1].key, n);
      }
    }

    method SawString(text: string) returns (ok: bool)
      requires error == Invalid
      modifies this
      ensures Agrees(ok, Apply(old(View()), SeeString(text)))
    {
      ok := CountNode();
      if !ok || stack == [] {
        return false;
      }
      var s := stack[|stack| - 1];
      if !TextFits(s.role, s.key) {
        return false;
      }
      if s.role == PairRole {
        s := s.(count := s.count + 1);
        if s.count > 2 {
          return false;
        }
      }
      if !IsBody(s.role, s.key) {
        if metadata + |text| > MAX_METADATA_BYTES {
          error := TooLarge;
          return false;
        }
        metadata := metadata + |text|;
      }
      if Discriminates(s.role, s.key) {
        s := s.(discriminator := text);
      }
      stack := stack[|stack| - 1 := s];
    }

    method BeginObject() returns (ok: bool)
      requires error == Invalid
      modifies this
      ensures Agrees(ok, Apply(old(View()), StartObject))
    {
      ok := CountNode();
      if !ok {
        return;
      }
      if stack == [] {
        if rootSeen {
          return false;
        }
        rootSeen := true;
        PushScope(RootRole);
        return;
      }
      var role := SubRole(stack[|stack| - 1].role, stack[|stack| - 1].key);
      if role.None? {
        return false;
      }
      PushScope(role.value);
    }

    method BeginArray() returns (ok: bool)
      requires error == Invalid
      modifies this
      ensures Agrees(ok, Apply(old(View()), StartArray))
    {
      ok := CountNode();
      if !ok || stack == [] {
        return false;
      }
      var s := stack[|stack| - 1];
      if IsHeaders(s.role, s.key) {
        PushScope(HeadersRole);
        return;
      }
      if s.role != HeadersRole {
        return false;
      }
      if s.count + 1 > MAX_HEADER_PAIRS {
        error := TooLarge;
        return false;
      }
      stack := stack[|stack| - 1 := s.(count := s.count + 1)];
      PushScope(PairRole);
    }

    method SawKey(key: Key) returns (ok: bool)
      requires error == Invalid
      modifies this
      ensures Agrees(ok, Apply(old(View()), SeeKey(key)))
    {
      if stack == [] {
        return false;
      }
      var s := stack[|stack| - 1];
      if !Allowed(s.role, key) || key in s.keys {
        return false;
      }
      stack := stack[|stack| - 1 := s.(keys := s.keys + [key], key := Some(key))];
      ok := true;
    }

    method EndScope() returns (ok: bool)
      requires error == Invalid
      modifies this
      ensures Agrees(ok, OnEnd(old(View())))
    {
      if stack == [] || !MayEnd(stack[|stack| - 1]) {
        return false;
      }
      stack := stack[..|stack| - 1];
      ok := true;
    }

    method OnEvent(e: Sax) returns (ok: bool)
      requires error == Invalid
      modifies this
      ensures Agrees(ok, Apply(old(View()), e))
    {
      hide OnNull, OnInteger, OnString, OnStartObject, OnStartArray, OnKey, OnEnd;
      match e
      case SeeNull => ok := SawNull();
      case SeeInt(n) => ok := SawInteger(n);
      case SeeString(text) => ok := SawString(text);
      case StartObject => ok := BeginObject();
      case StartArray => ok := BeginArray();
      case SeeKey(key) => ok := SawKey(key);
      case EndObject => ok := EndScope();
      case EndArray => ok := EndScope();
      case _ => ok := false;
    }
  }

  /** The document's events in turn, up to the first one refused. */
  method PreflightDocument(j: Json) returns (r: Result<(nat, nat), CodecError>)
    ensures r.Ok? <==> Schema(j)
    ensures r.Ok? ==> r.value == (Nodes(j), FieldWeight(RootRole, j, 0))
    ensures r.Err? ==> Check(j) == Err(r.error)
  {
    hide Apply, Schema;
    CheckIsSchema(j);
    var reader := new Reader();
    var events := Events(j);
    var i := 0;
    while i < |events|
      invariant i <= |events| && reader.error == Invalid
      invariant Check(j) == Run(Ok(reader.View()), events[i..])
      modifies reader
    {
      assert events[i..][1..] == events[i + 1..];
      var before := reader.View();
      var ok := reader.OnEvent(events[i]);
      if !ok {
        RunError(Apply(before, events[i]), events[i + 1..]);
        return Err(reader.error);
      }
      i := i + 1;
    }
    r := Ok((reader.nodes, reader.metadata));
  }
}
