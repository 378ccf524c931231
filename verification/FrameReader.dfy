/** Reading frames back (frames.cpp: read_frame, parse_frame_payload, parse_framed_buffer; codec.cpp:
    parse_wire_request, parse_wire_response, parse_context).  Reading presupposes that the automaton accepted the
    document: every member access below is unchecked in the source, and is safe only for that reason. */
module FrameReader {
  import opened Wrappers
  import opened Context
  import opened Headers
  import opened Limits
  import opened Preflight
  import opened FrameRecords
  import opened Frames
  import Base64
  import Decimal

  // ----- scalars -----

  function ReadNs(text: string): (r: Option<U64>)
    ensures r.Some? <==> Decimal.Plain(text) && Decimal.Number(text) <= U64_MAX
    ensures r.Some? ==> Decimal.Print(r.value) == text
  {
    if Decimal.Plain(text) && Decimal.Number(text) <= U64_MAX then
      Decimal.NumberPrint(text);
      Some(Decimal.Number(text))
    else None
  }

  lemma NsReadsBack(n: U64)
    ensures ReadNs(Decimal.Print(n)) == Some(n)
  {
    Decimal.PrintPlain(n);
  }

  ghost predicate Encodes(body: seq<Byte>, text: string) {
    |body| <= Base64.MAX_BODY_BYTES && Base64.Encode(body) == text
  }

  /** The body that a base64 text stands for, if it stands for one within the limit. */
  ghost function ReadBody(text: string): Option<seq<Byte>> {
    if exists body: seq<Byte> :: Encodes(body, text) then
      var body: seq<Byte> :| Encodes(body, text);
      Some(body)
    else None
  }

  lemma BodyReadsBack(body: seq<Byte>)
    requires |body| <= Base64.MAX_BODY_BYTES
    ensures ReadBody(Base64.Encode(body)) == Some(body)
  {
    hide Base64.Encode;
    assert Encodes(body, Base64.Encode(body));
    Base64.EncodeInjective(body, ReadBody(Base64.Encode(body)).value);
  }

  // ----- members of records that fit -----

  /** Members whose value can only be a string. */
  predicate TextKey(role: Role, key: Key) {
    && SubRole(role, Some(key)).None? && !IsHeaders(role, Some(key)) && key != SchemaKey && key != StatusKey
    && !(role == SettlementRole && key == EnteredAtKey) && role != HeadersRole
  }

  lemma OnlyText(role: Role, key: Key, v: Json)
    requires TextKey(role, key) && Fits(role, Some(key), v)
    ensures v.Str?
  {
  }

  predicate Complete(role: Role, j: Json, required: seq<Key>) {
    j.Obj? && FieldsFit(role, j, 0) && Exact(Keys(j, |j.fields|), required)
  }

  function TextOf(role: Role, j: Json, required: seq<Key>, key: Key): string
    requires Complete(role, j, required) && key in required && TextKey(role, key)
  {
    Member(role, j, required, key);
    OnlyText(role, key, Get(j, key));
    Get(j, key).text
  }

  function SubOf(role: Role, j: Json, required: seq<Key>, key: Key): (v: Json)
    requires Complete(role, j, required) && key in required && SubRole(role, Some(key)).Some?
    ensures v.Obj? && RecordFits(SubRole(role, Some(key)).value, v)
  {
    Member(role, j, required, key);
    OnlyRecord(role, key, Get(j, key));
    Get(j, key)
  }

  lemma OnlyRecord(role: Role, key: Key, v: Json)
    requires SubRole(role, Some(key)).Some? && Fits(role, Some(key), v)
    ensures v.Obj? && RecordFits(SubRole(role, Some(key)).value, v)
  {
  }

  lemma DistinctKeys(role: Role, j: Json)
    requires j.Obj? && FieldsFit(role, j, 0)
    ensures Distinct(j)
  {
    hide Fits, Allowed, FieldsFit;
    forall i, k | 0 <= i < k < |j.fields|
      ensures j.fields[i].key != j.fields[k].key
    {
      FieldFits(role, j, 0, k);
      KeysAre(j, k);
      assert Keys(j, k)[i] == j.fields[i].key;
    }
  }

  /** The discriminator that the automaton kept is the text of the member the reader asks for. */
  lemma DiscriminatorIs(role: Role, j: Json, required: seq<Key>, key: Key)
    requires Complete(role, j, required) && key in required && TextKey(role, key) && Discriminates(role, Some(key))
    ensures TextOf(role, j, required, key) == Discriminator(role, j, |j.fields|)
  {
    hide Fits, Allowed, FieldsFit, Exact;
    DistinctKeys(role, j);
    Member(role, j, required, key);
    OnlyText(role, key, Get(j, key));
    var i :| 0 <= i < |j.fields| && j.fields[i] == Field(key, Get(j, key));
    DiscriminatorAt(role, j, i, |j.fields|);
  }

  // ----- records -----

  const EXTENSION_KEYS: seq<Key> := [PackageIdKey, NameKey, VersionKey, ArtifactKey, ReceiptKey]
  const RESPONSE_KEYS: seq<Key> := [SchemaKey, StatusKey, HeadersKey, BodyKey]
  const SETTLEMENT_KEYS: seq<Key> := [ReasonKey, EntryStateKey, EnteredAtKey]

  function ExtensionText(j: Json, key: Key): string
    requires j.Obj? && RecordFits(ExtensionRole, j) && Allowed(ExtensionRole, key)
  {
    ExtensionHas(key);
    TextOf(ExtensionRole, j, EXTENSION_KEYS, key)
  }

  lemma ExtensionHas(key: Key)
    requires Allowed(ExtensionRole, key)
    ensures key in EXTENSION_KEYS && TextKey(ExtensionRole, key)
  {
  }

  function ReadExtension(j: Json): Extension
    requires j.Obj? && RecordFits(ExtensionRole, j)
  {
    Extension(ExtensionText(j, PackageIdKey), ExtensionText(j, NameKey), ExtensionText(j, VersionKey),
              ExtensionText(j, ArtifactKey), ExtensionText(j, ReceiptKey))
  }

  function ReadPrincipal(j: Json): Principal
    requires j.Obj? && RecordFits(PrincipalRole, j)
  {
    hide FieldsFit, Exact, Keys, Discriminator;
    if Discriminator(PrincipalRole, j, |j.fields|) == "anonymous" then Anonymous
    else Pat(TextOf(PrincipalRole, j, [KindKey, UserIdKey, PatIdKey], UserIdKey),
             TextOf(PrincipalRole, j, [KindKey, UserIdKey, PatIdKey], PatIdKey))
  }

  function ContextText(j: Json, key: Key): string
    requires j.Obj? && RecordFits(ContextRole, j) && Allowed(ContextRole, key) && TextKey(ContextRole, key)
  {
    hide FieldsFit, Exact, Keys, Discriminator, Allowed, TextKey;
    ContextHas(key);
    TextOf(ContextRole, j, CONTEXT_KEYS, key)
  }

  lemma ContextHas(key: Key)
    requires Allowed(ContextRole, key)
    ensures key in CONTEXT_KEYS
  {
  }

  function ContextSub(j: Json, key: Key): (v: Json)
    requires j.Obj? && RecordFits(ContextRole, j) && (key == PrincipalKey || key == ExtensionKey)
    ensures v.Obj? && RecordFits(if key == PrincipalKey then PrincipalRole else ExtensionRole, v)
  {
    hide FieldsFit, Exact, Keys, Discriminator;
    ContextHas(key);
    SubOf(ContextRole, j, CONTEXT_KEYS, key)
  }

  lemma ContextTextKeys()
    ensures forall key :: key in [DispatchKey, OwnerEpochKey, AdapterEpochKey, ClockDomainKey, PrefixKey] ==>
              Allowed(ContextRole, key) && TextKey(ContextRole, key)
  {
  }

  /** The context as read, before it is validated. */
  function RawContext(j: Json, admitted: U64, cutoff: U64): ContextData
    requires j.Obj? && RecordFits(ContextRole, j)
  {
    hide RecordFits, Allowed, TextKey, ContextText, ReadPrincipal, ReadExtension;
    ContextTextKeys();
    ContextData(ContextText(j, DispatchKey), ContextText(j, OwnerEpochKey), ContextText(j, AdapterEpochKey),
                ContextText(j, ClockDomainKey), admitted, cutoff, ContextText(j, PrefixKey),
                ReadPrincipal(ContextSub(j, PrincipalKey)), ReadExtension(ContextSub(j, ExtensionKey)))
  }

  function ReadContext(j: Json): (r: Option<ContextData>)
    requires j.Obj? && RecordFits(ContextRole, j)
    ensures r.Some? ==> ValidContext(r.value)
  {
    hide RecordFits, ContextText, ReadNs;
    var admitted, cutoff := ReadNs(ContextText(j, AdmittedAtKey)), ReadNs(ContextText(j, CutoffKey));
    if admitted.None? || cutoff.None? then None
    else
      var c := RawContext(j, admitted.value, cutoff.value);
      if ValidContext(c) then Some(c) else None
  }

  lemma OnlyHeaders(role: Role, v: Json)
    requires (role == RequestRole || role == ResponseRole) && Fits(role, Some(HeadersKey), v)
    ensures v.Arr? && ItemsFit(HeadersRole, v, 0)
  {
  }

  lemma OnlyPair(v: Json)
    requires Fits(HeadersRole, None, v)
    ensures v.Arr? && |v.items| == 2 && v.items[0].Str? && v.items[1].Str?
  {
    assert ItemsFit(PairRole, v, 0) && Fits(PairRole, None, v.items[0]);
    assert ItemsFit(PairRole, v, 1) && Fits(PairRole, None, v.items[1]);
    TextInPair(v.items[0]);
    TextInPair(v.items[1]);
  }

  lemma TextInPair(v: Json)
    requires Fits(PairRole, None, v)
    ensures v.Str?
  {
  }

  function ReadPairs(j: Json, i: nat): (r: seq<Header>)
    requires j.Arr? && i <= |j.items| && ItemsFit(HeadersRole, j, i)
    ensures |r| == |j.items| - i
    decreases |j.items| - i
  {
    if i == |j.items| then []
    else
      OnlyPair(j.items[i]);
      [Header(j.items[i].items[0].text, j.items[i].items[1].text)] + ReadPairs(j, i + 1)
  }

  function HeadersOf(role: Role, j: Json, required: seq<Key>): seq<Header>
    requires Complete(role, j, required) && HeadersKey in required && (role == RequestRole || role == ResponseRole)
  {
    Member(role, j, required, HeadersKey);
    OnlyHeaders(role, Get(j, HeadersKey));
    ReadPairs(Get(j, HeadersKey), 0)
  }

  function RequestText(j: Json, key: Key): string
    requires j.Obj? && RecordFits(RequestRole, j) && Allowed(RequestRole, key) && TextKey(RequestRole, key)
  {
    hide FieldsFit, Exact, Keys, Discriminator, Allowed, TextKey;
    RequestHas(key);
    TextOf(RequestRole, j, REQUEST_KEYS, key)
  }

  lemma RequestHas(key: Key)
    requires Allowed(RequestRole, key)
    ensures key in REQUEST_KEYS
  {
  }

  lemma RequestTextKeys()
    ensures forall key :: key in [RequestIdKey, MethodKey, PathKey, OriginalPathKey, QueryKey] ==>
              Allowed(RequestRole, key) && TextKey(RequestRole, key)
  {
  }

  /** The request as read, before it is validated. */
  function RawRequest(j: Json, body: seq<Byte>): Request
    requires j.Obj? && RecordFits(RequestRole, j)
  {
    hide FieldsFit, Exact, Keys, Discriminator, TextKey, RequestText;
    RequestHas(HeadersKey);
    RequestTextKeys();
    Request(RequestText(j, RequestIdKey), RequestText(j, MethodKey), RequestText(j, OriginalPathKey),
            RequestText(j, PathKey),
            RequestText(j, QueryKey), HeadersOf(RequestRole, j, REQUEST_KEYS), body)
  }

  ghost function ReadRequest(j: Json): (r: Option<Request>)
    requires j.Obj? && RecordFits(RequestRole, j)
    ensures r.Some? ==> ValidRequest(r.value)
  {
    var body := ReadBody(RequestText(j, BodyKey));
    if body.None? then None
    else
      var r := RawRequest(j, body.value);
      if ValidRequest(r) then Some(r) else None
  }

  lemma OnlyStatus(v: Json)
    requires Fits(ResponseRole, Some(StatusKey), v)
    ensures v.Int? && 200 <= v.number <= 599
  {
  }

  ghost function ReadResponse(j: Json): (r: Option<Response>)
    requires j.Obj? && RecordFits(ResponseRole, j)
    ensures r.Some? ==> ValidResponse(r.value)
  {
    var body := ReadBody(TextOf(ResponseRole, j, RESPONSE_KEYS, BodyKey));
    if body.None? then None
    else
      Member(ResponseRole, j, RESPONSE_KEYS, StatusKey);
      OnlyStatus(Get(j, StatusKey));
      var r := Response(Get(j, StatusKey).number, HeadersOf(ResponseRole, j, RESPONSE_KEYS), body.value);
      if ValidResponse(r) then Some(r) else None
  }

  ghost function ReadOutcome(j: Json): Option<Outcome>
    requires j.Obj? && RecordFits(OutcomeRole, j)
  {
    hide FieldsFit, Exact, Keys, Discriminator, ReadResponse;
    if Discriminator(OutcomeRole, j, |j.fields|) == "response" then
      var r := ReadResponse(SubOf(OutcomeRole, j, [KindKey, ResponseKey], ResponseKey));
      if r.None? then None else Some(Responded(r.value))
    else
      var e := ReadFailure(TextOf(OutcomeRole, j, [KindKey, CodeKey], CodeKey));
      if e.None? then None else Some(Broke(e.value))
  }

  lemma OnlyInstant(v: Json)
    requires Fits(SettlementRole, Some(EnteredAtKey), v)
    ensures v.Null? || v.Str?
  {
  }

  function ReadSettled(j: Json): Option<Settlement>
    requires j.Obj? && RecordFits(SettlementRole, j)
  {
    hide FieldsFit, Exact, Keys, Discriminator, Fits, ReadNs;
    var reason := ReadSettlement(TextOf(SettlementRole, j, SETTLEMENT_KEYS, ReasonKey));
    var entry := ReadEntry(TextOf(SettlementRole, j, SETTLEMENT_KEYS, EntryStateKey));
    Member(SettlementRole, j, SETTLEMENT_KEYS, EnteredAtKey);
    OnlyInstant(Get(j, EnteredAtKey));
    var at := Get(j, EnteredAtKey);
    if reason.None? || entry.None? then None
    else if at.Null? then Some(Settlement(reason.value, entry.value, None))
    else
      var n := ReadNs(at.text);
      if n.None? then None else Some(Settlement(reason.value, entry.value, n))
  }

  function ReadIdentity(j: Json, required: seq<Key>): FrameIdentity
    requires Complete(RootRole, j, required) && COMMON <= required
  {
    hide Complete;
    CommonIn(required);
    FrameIdentity(TextOf(RootRole, j, required, OwnerEpochKey), TextOf(RootRole, j, required, AdapterEpochKey),
                  TextOf(RootRole, j, required, DispatchKey), TextOf(RootRole, j, required, ReceiptKey))
  }

  lemma CommonIn(required: seq<Key>)
    requires COMMON <= required
    ensures forall k :: 0 <= k < 6 ==> required[k] == COMMON[k]
    ensures OwnerEpochKey in required && AdapterEpochKey in required && DispatchKey in required
              && ReceiptKey in required
  {
    assert required[2] == COMMON[2] && required[3] == COMMON[3] && required[4] == COMMON[4] && required[5] == COMMON[5];
  }

  function ReadHandshake(j: Json): HandshakeIdentity
    requires Complete(RootRole, j, HANDSHAKE_KEYS)
  {
    hide Complete, RecordFits;
    assert HANDSHAKE_KEYS[2] == OwnerEpochKey && HANDSHAKE_KEYS[3] == AdapterEpochKey;
    assert HANDSHAKE_KEYS[4] == ClockDomainKey && HANDSHAKE_KEYS[5] == ExtensionKey;
    HandshakeIdentity(TextOf(RootRole, j, HANDSHAKE_KEYS, OwnerEpochKey),
                      TextOf(RootRole, j, HANDSHAKE_KEYS, AdapterEpochKey),
                      TextOf(RootRole, j, HANDSHAKE_KEYS, ClockDomainKey),
                      ReadExtension(SubOf(RootRole, j, HANDSHAKE_KEYS, ExtensionKey)))
  }

  // ----- frames -----

  /** The frame's type: what its "type" member says. */
  function TypeOf(j: Json): string
    requires j.Obj? && RecordFits(RootRole, j)
  {
    Discriminator(RootRole, j, |j.fields|)
  }

  lemma TypeKeysOf(j: Json)
    requires j.Obj? && RecordFits(RootRole, j)
    ensures RootKeys(TypeOf(j)).Some? && Complete(RootRole, j, RootKeys(TypeOf(j)).value)
              && TypeKey in RootKeys(TypeOf(j)).value
  {
    hide FieldsFit, Exact, Keys, Discriminator;
    TypeAmong(TypeOf(j));
  }

  lemma TypeAmong(name: string)
    requires RootKeys(name).Some?
    ensures TypeKey in RootKeys(name).value
  {
    assert RootKeys(name).value[1] == TypeKey;
  }

  lemma TypeMember(j: Json)
    requires j.Obj? && RecordFits(RootRole, j)
    ensures Has(j, TypeKey) && Get(j, TypeKey) == Str(TypeOf(j))
  {
    hide FieldsFit, Exact, Keys, Discriminator, RootKeys;
    TypeKeysOf(j);
    var required := RootKeys(TypeOf(j)).value;
    DiscriminatorIs(RootRole, j, required, TypeKey);
    Member(RootRole, j, required, TypeKey);
    OnlyText(RootRole, TypeKey, Get(j, TypeKey));
  }

  function Subject(j: Json, keys: seq<Key>): FrameIdentity
    requires Complete(RootRole, j, COMMON + keys)
  {
    assert COMMON <= COMMON + keys;
    ReadIdentity(j, COMMON + keys)
  }

  ghost function ReadCall(j: Json): Option<Frame>
    requires Complete(RootRole, j, COMMON + [RequestKey, ContextKey])
  {
    hide Complete, RecordFits, ReadRequest, ReadContext, Subject;
    var required := COMMON + [RequestKey, ContextKey];
    assert required[6] == RequestKey && required[7] == ContextKey;
    var r := ReadRequest(SubOf(RootRole, j, required, RequestKey));
    var c := ReadContext(SubOf(RootRole, j, required, ContextKey));
    if r.None? || c.None? then None else Some(Call(Subject(j, [RequestKey, ContextKey]), r.value, c.value))
  }

  function ReadEntered(j: Json): Option<Frame>
    requires Complete(RootRole, j, COMMON + [EnteredAtKey])
  {
    hide Complete, ReadNs, Subject;
    var required := COMMON + [EnteredAtKey];
    assert required[6] == EnteredAtKey;
    var at := ReadNs(TextOf(RootRole, j, required, EnteredAtKey));
    if at.None? then None else Some(Entered(Subject(j, [EnteredAtKey]), at.value))
  }

  ghost function ReadAnswer(j: Json): Option<Frame>
    requires Complete(RootRole, j, COMMON + [OutcomeKey])
  {
    hide Complete, RecordFits, ReadOutcome, Subject;
    var required := COMMON + [OutcomeKey];
    assert required[6] == OutcomeKey;
    var o := ReadOutcome(SubOf(RootRole, j, required, OutcomeKey));
    if o.None? then None else Some(Answer(Subject(j, [OutcomeKey]), o.value))
  }

  function ReadCancelled(j: Json): Option<Frame>
    requires Complete(RootRole, j, COMMON + [ReasonKey])
  {
    hide Complete, Subject;
    var required := COMMON + [ReasonKey];
    assert required[6] == ReasonKey;
    var reason := ReadCancel(TextOf(RootRole, j, required, ReasonKey));
    if reason.None? then None else Some(Cancel(Subject(j, [ReasonKey]), reason.value))
  }

  function ReadSettledFrame(j: Json): Option<Frame>
    requires Complete(RootRole, j, COMMON + [SettlementKey])
  {
    hide Complete, RecordFits, ReadSettled, Subject;
    var required := COMMON + [SettlementKey];
    assert required[6] == SettlementKey;
    var s := ReadSettled(SubOf(RootRole, j, required, SettlementKey));
    if s.None? then None else Some(Settled(Subject(j, [SettlementKey]), s.value))
  }

  /** read_frame on a document the automaton accepted; None stands for its refusals. */
  ghost function ReadFrame(j: Json): Option<Frame>
    requires j.Obj? && RecordFits(RootRole, j)
  {
    TypeKeysOf(j);
    var t := TypeOf(j);
    if t == "hello" then Some(Hello(ReadHandshake(j)))
    else if t == "hello_ack" then Some(HelloAck(ReadHandshake(j)))
    else if t == "call" then ReadCall(j)
    else if t == "accepted" then assert COMMON + [] == COMMON; Some(Accepted(Subject(j, [])))
    else if t == "entered" then ReadEntered(j)
    else if t == "result" then ReadAnswer(j)
    else if t == "cancel" then ReadCancelled(j)
    else ReadSettledFrame(j)
  }

  /** parse_frame_payload from the document on: the automaton, the reader and the final validation. */
  ghost function ParseFrame(j: Json): (r: Option<Frame>)
    ensures r.Some? ==> ValidFrame(r.value)
  {
    CheckIsSchema(j);
    if Check(j).Err? then None
    else
      var f := ReadFrame(j);
      if f.None? || !ValidFrame(f.value) then None else f
  }

  // ----- what was written reads back -----

  lemma TextReads(role: Role, j: Json, required: seq<Key>, i: nat)
    requires Complete(role, j, required) && i < |j.fields| && j.fields[i].value.Str?
    requires j.fields[i].key in required && TextKey(role, j.fields[i].key)
    ensures TextOf(role, j, required, j.fields[i].key) == j.fields[i].value.text
  {
    hide FieldsFit, Exact, Keys;
    DistinctKeys(role, j);
    GetAt(j, i);
  }

  lemma SubReads(role: Role, j: Json, required: seq<Key>, i: nat)
    requires Complete(role, j, required) && i < |j.fields|
    requires j.fields[i].key in required && SubRole(role, Some(j.fields[i].key)).Some?
    ensures SubOf(role, j, required, j.fields[i].key) == j.fields[i].value
  {
    hide FieldsFit, Exact, Keys;
    DistinctKeys(role, j);
    GetAt(j, i);
  }

  lemma ExtensionTextReads(j: Json, i: nat)
    requires j.Obj? && RecordFits(ExtensionRole, j) && i < |j.fields| && j.fields[i].value.Str?
    requires Allowed(ExtensionRole, j.fields[i].key)
    ensures ExtensionText(j, j.fields[i].key) == j.fields[i].value.text
  {
    hide FieldsFit, Exact, Keys;
    ExtensionHas(j.fields[i].key);
    TextReads(ExtensionRole, j, EXTENSION_KEYS, i);
  }

  lemma ExtensionReads(e: Extension)
    ensures WriteExtension(e).Obj? && RecordFits(ExtensionRole, WriteExtension(e))
    ensures ReadExtension(WriteExtension(e)) == e
  {
    hide RecordFits, ExtensionText;
    WrittenExtension(e);
    var j := WriteExtension(e);
    ExtensionTextReads(j, 0);
    ExtensionTextReads(j, 1);
    ExtensionTextReads(j, 2);
    ExtensionTextReads(j, 3);
    ExtensionTextReads(j, 4);
  }

  lemma PrincipalReads(p: Principal)
    ensures WritePrincipal(p).Obj? && RecordFits(PrincipalRole, WritePrincipal(p))
    ensures ReadPrincipal(WritePrincipal(p)) == p
  {
    hide FieldsFit, Exact, Keys, TextOf, Discriminator;
    WrittenPrincipal(p);
    var j := WritePrincipal(p);
    DiscriminatorAt(PrincipalRole, j, 0, |j.fields|);
    if p.Pat? {
      TextReads(PrincipalRole, j, [KindKey, UserIdKey, PatIdKey], 1);
      TextReads(PrincipalRole, j, [KindKey, UserIdKey, PatIdKey], 2);
    }
  }

  lemma ContextTextReads(j: Json, i: nat)
    requires j.Obj? && RecordFits(ContextRole, j) && i < |j.fields| && j.fields[i].value.Str?
    requires Allowed(ContextRole, j.fields[i].key) && TextKey(ContextRole, j.fields[i].key)
    ensures ContextText(j, j.fields[i].key) == j.fields[i].value.text
  {
    hide FieldsFit, Exact, Keys;
    ContextHas(j.fields[i].key);
    TextReads(ContextRole, j, CONTEXT_KEYS, i);
  }

  lemma ContextSubReads(j: Json, i: nat)
    requires j.Obj? && RecordFits(ContextRole, j) && i < |j.fields|
    requires j.fields[i].key == PrincipalKey || j.fields[i].key == ExtensionKey
    ensures ContextSub(j, j.fields[i].key) == j.fields[i].value
  {
    hide FieldsFit, Exact, Keys;
    ContextHas(j.fields[i].key);
    SubReads(ContextRole, j, CONTEXT_KEYS, i);
  }

  lemma RawContextReads(c: ContextData)
    requires RecordFits(ContextRole, WriteContext(c))
    ensures RawContext(WriteContext(c), c.admittedAt, c.cutoff) == c
  {
    hide RecordFits, ContextText, ContextSub, WritePrincipal, WriteExtension, ReadPrincipal, ReadExtension,
        Decimal.Print;
    hide TextKey, Allowed;
    var j := WriteContext(c);
    ContextTextKeys();
    ContextTextReads(j, 1);
    ContextTextReads(j, 2);
    ContextTextReads(j, 3);
    ContextTextReads(j, 4);
    ContextTextReads(j, 7);
    ContextSubReads(j, 8);
    ContextSubReads(j, 9);
    PrincipalReads(c.principal);
    ExtensionReads(c.extension);
  }

  lemma ContextReads(c: ContextData)
    requires ValidContext(c)
    ensures RecordFits(ContextRole, WriteContext(c)) && ReadContext(WriteContext(c)) == Some(c)
  {
    hide RecordFits, ContextText, RawContext, WritePrincipal, WriteExtension, Decimal.Print, ValidContext, ReadNs;
    WrittenContext(c);
    var j := WriteContext(c);
    ContextTextReads(j, 5);
    ContextTextReads(j, 6);
    NsReadsBack(c.admittedAt);
    NsReadsBack(c.cutoff);
    RawContextReads(c);
  }

  lemma PairsStep(j: Json, i: nat)
    requires j.Arr? && i < |j.items| && ItemsFit(HeadersRole, j, i)
    ensures ItemsFit(HeadersRole, j, i + 1)
    ensures var p := j.items[i];
            && p.Arr? && |p.items| == 2 && p.items[0].Str? && p.items[1].Str?
            && ReadPairs(j, i) == [Header(p.items[0].text, p.items[1].text)] + ReadPairs(j, i + 1)
  {
    hide Fits;
    OnlyPair(j.items[i]);
  }

  lemma {:induction false} PairsRead(headers: seq<Header>, i: nat)
    requires i <= |headers| && ItemsFit(HeadersRole, Arr(WritePairs(headers)), i)
    ensures ReadPairs(Arr(WritePairs(headers)), i) == headers[i..]
    decreases |headers| - i
  {
    if i < |headers| {
      hide ItemsFit, ReadPairs;
      var j := Arr(WritePairs(headers));
      PairsStep(j, i);
      PairsRead(headers, i + 1);
      assert j.items[i] == WritePair(headers[i]);
      assert headers[i..] == [headers[i]] + headers[i + 1..];
    }
  }

  lemma HeadersRead(role: Role, j: Json, required: seq<Key>, i: nat, headers: seq<Header>)
    requires Complete(role, j, required) && HeadersKey in required && (role == RequestRole || role == ResponseRole)
    requires i < |j.fields| && j.fields[i] == Field(HeadersKey, Arr(WritePairs(headers)))
    ensures HeadersOf(role, j, required) == headers
  {
    hide FieldsFit, Exact, Keys, Fits, WritePairs, ItemsFit;
    DistinctKeys(role, j);
    GetAt(j, i);
    Member(role, j, required, HeadersKey);
    OnlyHeaders(role, Get(j, HeadersKey));
    PairsRead(headers, 0);
    assert headers[0..] == headers;
  }

  lemma RequestTextReads(j: Json, i: nat)
    requires j.Obj? && RecordFits(RequestRole, j) && i < |j.fields| && j.fields[i].value.Str?
    requires Allowed(RequestRole, j.fields[i].key) && TextKey(RequestRole, j.fields[i].key)
    ensures RequestText(j, j.fields[i].key) == j.fields[i].value.text
  {
    hide FieldsFit, Exact, Keys;
    RequestHas(j.fields[i].key);
    TextReads(RequestRole, j, REQUEST_KEYS, i);
  }

  lemma RawRequestReads(r: Request)
    requires RecordFits(RequestRole, WriteRequest(r))
    ensures RawRequest(WriteRequest(r), r.body) == r
  {
    hide RequestText, HeadersOf, Base64.Encode, WritePairs, FieldsFit, Exact, Keys, Discriminator, TextKey, Allowed;
    var j := WriteRequest(r);
    RequestTextKeys();
    RequestTextReads(j, 1);
    RequestTextReads(j, 2);
    RequestTextReads(j, 3);
    RequestTextReads(j, 4);
    RequestTextReads(j, 5);
    assert REQUEST_KEYS[6] == HeadersKey;
    HeadersRead(RequestRole, j, REQUEST_KEYS, 6, r.headers);
  }

  lemma RequestReads(r: Request)
    requires ValidRequest(r)
    ensures RecordFits(RequestRole, WriteRequest(r)) && ReadRequest(WriteRequest(r)) == Some(r)
  {
    hide RecordFits, RequestText, RawRequest, Base64.Encode, WritePairs, ValidRequest, ReadBody;
    RequestHeaders(r);
    WrittenRequest(r);
    RequestTextReads(WriteRequest(r), 7);
    RawRequestReads(r);
    BodyReadsBack(r.body);
  }

  lemma RequestHeaders(r: Request)
    requires ValidRequest(r)
    ensures |r.headers| <= MAX_HEADER_PAIRS && |r.body| <= Base64.MAX_BODY_BYTES
  {
  }

  lemma ResponseReads(r: Response)
    requires ValidResponse(r)
    ensures RecordFits(ResponseRole, WriteResponse(r)) && ReadResponse(WriteResponse(r)) == Some(r)
  {
    hide FieldsFit, Exact, Keys, Discriminator, TextOf, HeadersOf, Base64.Encode, WritePairs, ReadBody;
    WrittenResponse(r);
    var j := WriteResponse(r);
    TextReads(ResponseRole, j, RESPONSE_KEYS, 3);
    HeadersRead(ResponseRole, j, RESPONSE_KEYS, 2, r.headers);
    DistinctKeys(ResponseRole, j);
    GetAt(j, 1);
    BodyReadsBack(r.body);
  }

  lemma OutcomeReads(o: Outcome)
    requires o.Responded? ==> ValidResponse(o.response)
    ensures RecordFits(OutcomeRole, WriteOutcome(o)) && ReadOutcome(WriteOutcome(o)) == Some(o)
  {
    hide FieldsFit, Exact, Keys, Discriminator, TextOf, SubOf, WriteResponse, ReadResponse, FailureName, ReadFailure;
    if o.Responded? {
      hide ValidResponse;
      ResponseHeaders(o.response);
      WrittenOutcome(o);
      var j := WriteOutcome(o);
      DiscriminatorAt(OutcomeRole, j, 0, |j.fields|);
      SubReads(OutcomeRole, j, [KindKey, ResponseKey], 1);
      ResponseReads(o.response);
    } else {
      WrittenOutcome(o);
      var j := WriteOutcome(o);
      DiscriminatorAt(OutcomeRole, j, 0, |j.fields|);
      TextReads(OutcomeRole, j, [KindKey, CodeKey], 1);
      NamesReadBack(o.failure, Deadline, Completed, NotEntered);
    }
  }

  lemma ResponseHeaders(r: Response)
    requires ValidResponse(r)
    ensures |r.headers| <= MAX_HEADER_PAIRS && 200 <= r.status <= 599
  {
  }

  lemma SettlementReads(s: Settlement)
    ensures RecordFits(SettlementRole, WriteSettlement(s)) && ReadSettled(WriteSettlement(s)) == Some(s)
  {
    hide FieldsFit, Exact, Keys, Discriminator, TextOf, SettlementName, EntryName, ReadSettlement, ReadEntry,
        Decimal.Print, ReadNs;
    WrittenSettlement(s);
    var j := WriteSettlement(s);
    TextReads(SettlementRole, j, SETTLEMENT_KEYS, 0);
    TextReads(SettlementRole, j, SETTLEMENT_KEYS, 1);
    DistinctKeys(SettlementRole, j);
    GetAt(j, 2);
    NamesReadBack(HandlerFailed, Deadline, s.reason, s.entry);
    if s.enteredAt.Some? {
      NsReadsBack(s.enteredAt.value);
    }
  }

  lemma FrameComplete(f: Frame)
    requires ValidFrame(f)
    ensures var j := WriteFrame(f);
            && j.Obj? && RecordFits(RootRole, j) && TypeOf(j) == TypeName(f)
            && RootKeys(TypeName(f)).Some? && Complete(RootRole, j, RootKeys(TypeName(f)).value)
  {
    hide ValidFrame, FieldsFit, Exact, Keys, Discriminator, RootKeys, FieldWeight, Nodes, MetadataSize, Extra;
    var j := WriteFrame(f);
    FrameSums(f);
    DistinctKeys(RootRole, j);
    TypeSecond(f);
    DiscriminatorAt(RootRole, j, 1, |j.fields|);
    TypeKeysOf(j);
  }

  /** Every frame says its type in its second member. */
  lemma TypeSecond(f: Frame)
    ensures WriteFrame(f).Obj? && |WriteFrame(f).fields| >= 2 && WriteFrame(f).fields[1] == Text(TypeKey, TypeName(f))
  {
    hide WriteRequest, WriteContext, WriteOutcome, WriteSettlement, WriteExtension, Decimal.Print, CancelName;
  }

  lemma CommonAt(name: string, i: FrameIdentity, extra: seq<Field>)
    ensures var fields := WriteCommon(name, i) + extra;
            && |fields| == 6 + |extra|
            && fields[2] == Text(OwnerEpochKey, i.ownerEpoch) && fields[3] == Text(AdapterEpochKey, i.adapterEpoch)
            && fields[4] == Text(DispatchKey, i.dispatchId) && fields[5] == Text(ReceiptKey, i.receiptId)
            && (|extra| > 0 ==> fields[6] == extra[0]) && (|extra| > 1 ==> fields[7] == extra[1])
  {
  }

  lemma RootTextKeys()
    ensures TextKey(RootRole, OwnerEpochKey) && TextKey(RootRole, AdapterEpochKey) && TextKey(RootRole, DispatchKey)
    ensures TextKey(RootRole, ReceiptKey) && TextKey(RootRole, ClockDomainKey)
  {
  }

  lemma SubjectReads(j: Json, name: string, i: FrameIdentity, extra: seq<Field>, keys: seq<Key>)
    requires j == Obj(WriteCommon(name, i) + extra) && Complete(RootRole, j, COMMON + keys)
    ensures Subject(j, keys) == i
  {
    hide Complete, TextOf, WriteCommon, TextKey;
    var required := COMMON + keys;
    assert COMMON <= required;
    CommonIn(required);
    CommonAt(name, i, extra);
    RootTextKeys();
    TextReads(RootRole, j, required, 2);
    TextReads(RootRole, j, required, 3);
    TextReads(RootRole, j, required, 4);
    TextReads(RootRole, j, required, 5);
  }

  lemma HandshakeReads(f: Frame)
    requires (f.Hello? || f.HelloAck?) && Complete(RootRole, WriteFrame(f), HANDSHAKE_KEYS)
    ensures ReadHandshake(WriteFrame(f)) == f.handshake
  {
    hide Complete, TextOf, SubOf, WriteExtension, ReadExtension, TextKey, RecordFits;
    var j := WriteFrame(f);
    RootTextKeys();
    assert HANDSHAKE_KEYS[2] == OwnerEpochKey && HANDSHAKE_KEYS[3] == AdapterEpochKey
        && HANDSHAKE_KEYS[4] == ClockDomainKey;
    assert HANDSHAKE_KEYS[5] == ExtensionKey;
    TextReads(RootRole, j, HANDSHAKE_KEYS, 2);
    TextReads(RootRole, j, HANDSHAKE_KEYS, 3);
    TextReads(RootRole, j, HANDSHAKE_KEYS, 4);
    SubReads(RootRole, j, HANDSHAKE_KEYS, 5);
    ExtensionReads(f.handshake.extension);
  }

  lemma CallReads(f: Frame)
    requires f.Call? && ValidRequest(f.request) && ValidContext(f.context)
    requires Complete(RootRole, WriteFrame(f), COMMON + [RequestKey, ContextKey])
    ensures ReadCall(WriteFrame(f)) == Some(f)
  {
    hide Complete, SubOf, Subject, WriteCommon, WriteRequest, WriteContext, ReadRequest, ReadContext, ValidRequest,
        ValidContext, RecordFits;
    var j, required := WriteFrame(f), COMMON + [RequestKey, ContextKey];
    var extra := [Field(RequestKey, WriteRequest(f.request)), Field(ContextKey, WriteContext(f.context))];
    CommonAt("call", f.identity, extra);
    SubjectReads(j, "call", f.identity, extra, [RequestKey, ContextKey]);
    assert required[6] == RequestKey && required[7] == ContextKey;
    SubReads(RootRole, j, required, 6);
    SubReads(RootRole, j, required, 7);
    RequestReads(f.request);
    ContextReads(f.context);
  }

  lemma EnteredReads(f: Frame)
    requires f.Entered? && Complete(RootRole, WriteFrame(f), COMMON + [EnteredAtKey])
    ensures ReadEntered(WriteFrame(f)) == Some(f)
  {
    hide Complete, TextOf, Subject, WriteCommon, Decimal.Print, ReadNs;
    var j, required, extra := WriteFrame(f), COMMON + [EnteredAtKey], [Text(EnteredAtKey, Decimal.Print(f.at))];
    CommonAt("entered", f.identity, extra);
    SubjectReads(j, "entered", f.identity, extra, [EnteredAtKey]);
    assert required[6] == EnteredAtKey;
    TextReads(RootRole, j, required, 6);
    NsReadsBack(f.at);
  }

  lemma AnswerReads(f: Frame)
    requires f.Answer? && (f.outcome.Responded? ==> ValidResponse(f.outcome.response))
    requires Complete(RootRole, WriteFrame(f), COMMON + [OutcomeKey])
    ensures ReadAnswer(WriteFrame(f)) == Some(f)
  {
    hide Complete, SubOf, Subject, WriteCommon, WriteOutcome, ReadOutcome, ValidResponse, RecordFits;
    var j, required, extra := WriteFrame(f), COMMON + [OutcomeKey], [Field(OutcomeKey, WriteOutcome(f.outcome))];
    CommonAt("result", f.identity, extra);
    SubjectReads(j, "result", f.identity, extra, [OutcomeKey]);
    assert required[6] == OutcomeKey;
    SubReads(RootRole, j, required, 6);
    OutcomeReads(f.outcome);
  }

  lemma CancelReads(f: Frame)
    requires f.Cancel? && Complete(RootRole, WriteFrame(f), COMMON + [ReasonKey])
    ensures ReadCancelled(WriteFrame(f)) == Some(f)
  {
    hide Complete, TextOf, Subject, WriteCommon, CancelName, ReadCancel;
    var j, required, extra := WriteFrame(f), COMMON + [ReasonKey], [Text(ReasonKey, CancelName(f.reason))];
    CommonAt("cancel", f.identity, extra);
    SubjectReads(j, "cancel", f.identity, extra, [ReasonKey]);
    assert required[6] == ReasonKey;
    TextReads(RootRole, j, required, 6);
    NamesReadBack(HandlerFailed, f.reason, Completed, NotEntered);
  }

  lemma SettledReads(f: Frame)
    requires f.Settled? && Complete(RootRole, WriteFrame(f), COMMON + [SettlementKey])
    ensures ReadSettledFrame(WriteFrame(f)) == Some(f)
  {
    hide Complete, SubOf, Subject, WriteCommon, WriteSettlement, ReadSettled, RecordFits;
    var j, required, extra := WriteFrame(f), COMMON + [SettlementKey],
        [Field(SettlementKey, WriteSettlement(f.settlement))];
    CommonAt("settled", f.identity, extra);
    SubjectReads(j, "settled", f.identity, extra, [SettlementKey]);
    assert required[6] == SettlementKey;
    SubReads(RootRole, j, required, 6);
    SettlementReads(f.settlement);
  }

  lemma AcceptedReads(f: Frame)
    requires f.Accepted? && Complete(RootRole, WriteFrame(f), COMMON + [])
    ensures Subject(WriteFrame(f), []) == f.identity
  {
    hide Complete, Subject, WriteCommon;
    assert WriteCommon("accepted", f.identity) + [] == WriteCommon("accepted", f.identity);
    SubjectReads(WriteFrame(f), "accepted", f.identity, [], []);
  }

  lemma FrameReads(f: Frame)
    requires ValidFrame(f)
    ensures WriteFrame(f).Obj? && RecordFits(RootRole, WriteFrame(f)) && ReadFrame(WriteFrame(f)) == Some(f)
  {
    hide ReadCall, ReadEntered, ReadAnswer, ReadCancelled, ReadSettledFrame, ReadHandshake, Subject, WriteFrame, TypeOf,
        Complete;
    hide RecordFits, MetadataSize, ValidRequest, ValidResponse, ValidContext;
    FrameComplete(f);
    match f
    case Hello(_) => HandshakeReads(f);
    case HelloAck(_) => HandshakeReads(f);
    case Call(_, _, _) => CallReads(f);
    case Accepted(_) =>
      assert COMMON + [] == COMMON;
      AcceptedReads(f);
    case Entered(_, _) => EnteredReads(f);
    case Answer(_, _) => AnswerReads(f);
    case Cancel(_, _) => CancelReads(f);
    case Settled(_, _) => SettledReads(f);
  }

  /** Every valid frame is read back from what it is written as: accepted by the automaton, read and valid, the same. */
  lemma FrameRoundTrip(f: Frame)
    requires ValidFrame(f)
    ensures ParseFrame(WriteFrame(f)) == Some(f)
  {
    hide ReadFrame, ValidFrame, RecordFits, Check;
    WrittenFrameIsAccepted(f);
    FrameReads(f);
  }

  /** Two valid frames are never written alike. */
  lemma WriteIsInjective(f: Frame, g: Frame)
    requires ValidFrame(f) && ValidFrame(g) && WriteFrame(f) == WriteFrame(g)
    ensures f == g
  {
    hide ParseFrame, ValidFrame, WriteFrame;
    FrameRoundTrip(f);
    FrameRoundTrip(g);
  }
}
