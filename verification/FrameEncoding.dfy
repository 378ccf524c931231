/** Whole frames on the wire (frames.cpp: encode_frame, parse_framed_buffer).  The last check before a frame is sent is
    the reader's own preflight of the text just written; it never refuses a frame that validates. */
module FrameEncoding {
  import opened Wrappers
  import opened Context
  import opened Headers
  import opened Limits
  import opened Preflight
  import opened Frames
  import opened FrameText
  import Base64
  import Decimal
  import FrameLength
  import FrameReader
  import RequestTarget
  import Utf8
  import WireDocuments

  // ----- the body of a written frame -----

  /** No member of the document is a body. */
  predicate Bodiless(j: Json)
    decreases j
  {
    match j
    case Arr(items) => forall i :: 0 <= i < |items| ==> Bodiless(items[i])
    case Obj(fields) => forall i :: 0 <= i < |fields| ==> fields[i].key != BodyKey && Bodiless(fields[i].value)
    case _ => true
  }

  lemma {:induction false} BodilessBody(j: Json, body: Option<Length>)
    requires Bodiless(j)
    ensures Body(j, body) == Ok(body)
    decreases j
  {
    hide ItemsBody, FieldsBody;
    match j
    case Arr(_) => BodilessItems(j, 0, body);
    case Obj(_) => BodilessFields(j, 0, body);
    case _ =>
  }

  lemma {:induction false} BodilessItems(j: Json, i: nat, body: Option<Length>)
    requires j.Arr? && i <= |j.items| && Bodiless(j)
    ensures ItemsBody(j, i, body) == Ok(body)
    decreases j, |j.items| - i + 1
  {
    hide Body;
    if i < |j.items| {
      BodilessBody(j.items[i], body);
      BodilessItems(j, i + 1, body);
    }
  }

  lemma {:induction false} BodilessFields(j: Json, i: nat, body: Option<Length>)
    requires j.Obj? && i <= |j.fields| && forall k :: i <= k < |j.fields| ==> BodilessField(j.fields[k])
    ensures FieldsBody(j, i, body) == Ok(body)
    decreases j, |j.fields| - i + 1
  {
    hide Body;
    if i < |j.fields| {
      BodilessBody(j.fields[i].value, body);
      BodilessFields(j, i + 1, body);
    }
  }

  predicate BodilessField(f: Field) {
    f.key != BodyKey && Bodiless(f.value)
  }

  /** One member carries the body and the others none. */
  lemma {:induction false} CarriedBody(j: Json, k: nat, i: nat, carried: Option<Length>)
    requires j.Obj? && i <= k < |j.fields|
    requires forall m :: 0 <= m < |j.fields| && m != k ==> BodilessField(j.fields[m])
    requires var f := j.fields[k];
             Ok(carried) == if f.key == BodyKey then BodyValue(f.value, None) else Body(f.value, None)
    ensures FieldsBody(j, i, None) == Ok(carried)
    decreases k - i
  {
    hide Body, Bodiless, BodyValue;
    if i < k {
      assert BodilessField(j.fields[i]);
      BodilessBody(j.fields[i].value, None);
      CarriedBody(j, k, i + 1, carried);
    } else {
      BodilessFields(j, k + 1, carried);
    }
  }

  /** Encoded bodies are plain and within the limit. */
  lemma {:induction false} EncodedBody(body: seq<Byte>)
    ensures Plain(Base64.Encode(body)) && Ascii(Base64.Encode(body))
  {
    hide Base64.Quad;
    if |body| > 3 {
      EncodedBody(body[3..]);
    }
  }

  lemma EncodedLength(body: seq<Byte>)
    requires |body| <= Base64.MAX_BODY_BYTES
    ensures |Base64.Encode(body)| <= Base64.MAX_BODY64
  {
    if |body| > 0 {
      Base64.EncodeLength(body, (|body| - 1) / 3);
    }
  }

  lemma BodyIs(body: seq<Byte>)
    requires |body| <= Base64.MAX_BODY_BYTES
    ensures BodyValue(Str(Base64.Encode(body)), None).Ok?
  {
    hide Base64.Encode, Plain;
    EncodedBody(body);
    EncodedLength(body);
  }

  lemma HeadersBodiless(headers: seq<Header>)
    ensures Bodiless(Arr(WritePairs(headers)))
  {
    forall i | 0 <= i < |headers|
      ensures Bodiless(WritePairs(headers)[i])
    {
      assert WritePairs(headers)[i] == WritePair(headers[i]);
    }
  }

  lemma RequestBody(r: Request)
    requires |r.body| <= Base64.MAX_BODY_BYTES
    ensures Body(WriteRequest(r), None).Ok?
  {
    hide Base64.Encode, BodyValue, FieldsBody;
    var j := WriteRequest(r);
    HeadersBodiless(r.headers);
    BodyIs(r.body);
    CarriedBody(j, 7, 0, BodyValue(j.fields[7].value, None).value);
  }

  lemma ResponseBody(r: Response)
    requires |r.body| <= Base64.MAX_BODY_BYTES
    ensures Body(WriteResponse(r), None).Ok?
  {
    hide Base64.Encode, BodyValue, FieldsBody;
    var j := WriteResponse(r);
    HeadersBodiless(r.headers);
    BodyIs(r.body);
    CarriedBody(j, 3, 0, BodyValue(j.fields[3].value, None).value);
  }

  lemma ContextBodiless(c: ContextData)
    ensures Bodiless(WriteContext(c))
  {
    ExtensionBodiless(c.extension);
    PrincipalBodiless(c.principal);
    hide WriteExtension, WritePrincipal;
  }

  lemma ExtensionBodiless(e: Extension)
    ensures Bodiless(WriteExtension(e))
  {
  }

  lemma PrincipalBodiless(p: Principal)
    ensures Bodiless(WritePrincipal(p))
  {
  }

  lemma SettlementBodiless(s: Settlement)
    ensures Bodiless(WriteSettlement(s))
  {
  }

  lemma OutcomeBody(o: Outcome)
    requires o.Responded? ==> |o.response.body| <= Base64.MAX_BODY_BYTES
    ensures Body(WriteOutcome(o), None).Ok?
  {
    hide FieldsBody, WriteResponse;
    var j := WriteOutcome(o);
    if o.Responded? {
      ResponseBody(o.response);
      CarriedBody(j, 1, 0, Body(WriteResponse(o.response), None).value);
    } else {
      BodilessFields(j, 0, None);
    }
  }

  lemma ScalarBodiless(text: string)
    ensures Bodiless(Str(text))
  {
  }

  lemma CommonBodiless(name: string, i: FrameIdentity)
    ensures |WriteCommon(name, i)| == 6 && forall k :: 0 <= k < 6 ==> BodilessField(WriteCommon(name, i)[k])
  {
  }

  lemma HandshakeBodiless(name: string, i: HandshakeIdentity)
    ensures |WriteHandshake(name, i)| == 6 && forall k :: 0 <= k < 6 ==> BodilessField(WriteHandshake(name, i)[k])
  {
    ExtensionBodiless(i.extension);
    hide WriteExtension;
  }

  lemma CallBody(i: FrameIdentity, r: Request, c: ContextData)
    requires |r.body| <= Base64.MAX_BODY_BYTES
    ensures Body(WriteFrame(Call(i, r, c)), None).Ok?
  {
    hide FieldsBody, WriteRequest, WriteContext, Bodiless;
    RequestBody(r);
    ContextBodiless(c);
    CommonBodiless("call", i);
    CarriedBody(WriteFrame(Call(i, r, c)), 6, 0, Body(WriteRequest(r), None).value);
  }

  lemma AnswerBody(i: FrameIdentity, o: Outcome)
    requires o.Responded? ==> |o.response.body| <= Base64.MAX_BODY_BYTES
    ensures Body(WriteFrame(Answer(i, o)), None).Ok?
  {
    hide FieldsBody, WriteOutcome, Bodiless;
    OutcomeBody(o);
    CommonBodiless("result", i);
    CarriedBody(WriteFrame(Answer(i, o)), 6, 0, Body(WriteOutcome(o), None).value);
  }

  lemma OtherBody(f: Frame)
    requires !f.Call? && !f.Answer?
    ensures Body(WriteFrame(f), None).Ok?
  {
    hide FieldsBody, WriteSettlement, WriteHandshake, WriteCommon, Bodiless;
    match f {
      case Hello(i) => HandshakeBodiless("hello", i);
      case HelloAck(i) => HandshakeBodiless("hello_ack", i);
      case Accepted(i) => CommonBodiless("accepted", i);
      case Entered(i, at) =>
        CommonBodiless("entered", i);
        ScalarBodiless(Decimal.Print(at));
      case Cancel(i, reason) =>
        CommonBodiless("cancel", i);
        ScalarBodiless(CancelName(reason));
      case Settled(i, s) =>
        CommonBodiless("settled", i);
        SettlementBodiless(s);
    }
    BodilessFields(WriteFrame(f), 0, None);
  }

  lemma FrameBody(f: Frame)
    requires ValidFrame(f)
    ensures Body(WriteFrame(f), None).Ok?
  {
    hide Body, WriteFrame, MetadataSize;
    match f
    case Call(i, r, c) => CallBody(i, r, c);
    case Answer(i, o) => AnswerBody(i, o);
    case _ => OtherBody(f);
  }

  // ----- the strings of a valid frame are UTF-8 -----

  lemma UuidUtf8(text: string)
    requires ValidUuid(text)
    ensures Utf8.WellFormed(text)
  {
    hide Utf8.WellFormed;
    AsciiUtf8(text);
  }

  lemma PrintUtf8(n: nat)
    ensures Utf8.WellFormed(Decimal.Print(n))
  {
    hide Utf8.WellFormed;
    Decimal.PrintPlain(n);
    AsciiUtf8(Decimal.Print(n));
  }

  lemma NameUtf8(text: string)
    requires ValidName(text) || ValidHex256(text) || ValidMethod(text) || NameText(text)
    ensures Utf8.WellFormed(text)
  {
    hide Utf8.WellFormed;
    TokensAscii(text);
    AsciiUtf8(text);
  }

  lemma TokensAscii(text: string)
    requires ValidName(text) || ValidHex256(text) || ValidMethod(text) || NameText(text)
    ensures Ascii(text)
  {
    forall i | 0 <= i < |text|
      ensures text[i] as int < 128
    {
      if ValidMethod(text) || NameText(text) {
        assert Context.Token(text[i]);
        TokenAscii(text[i]);
      }
    }
  }

  lemma TokenAscii(c: char)
    requires Context.Token(c)
    ensures c as int < 128
  {
  }

  lemma {:induction false} QueryAscii(query: string)
    requires RequestTarget.QueryOk(query)
    ensures Ascii(query)
  {
    if query != "" {
      var n := if query[0] == '%' then 3 else 1;
      QueryAscii(query[n..]);
      assert query == query[..n] + query[n..];
    }
  }

  lemma ClaimAscii(claim: string)
    requires RequestTarget.ValidClaim(claim)
    ensures Ascii(claim)
  {
    hide RequestTarget.GoodPath;
    var t := RequestTarget.Stem(claim);
    forall i | 0 <= i < |claim|
      ensures claim[i] as int < 128
    {
      if i < |t| {
        assert claim[i] == t[i];
      } else {
        assert claim[i] == claim[|claim| - 2..][i - (|claim| - 2)];
      }
    }
  }

  lemma {:induction false} RunAscii(text: string, pos: nat, p: char -> bool)
    requires pos <= |text| && forall c :: p(c) ==> c as int < 128
    ensures forall i :: pos <= i < RunEnd(text, pos, p) ==> text[i] as int < 128
    decreases |text| - pos
  {
    if pos < |text| && p(text[pos]) {
      RunAscii(text, pos + 1, p);
    }
  }

  lemma {:induction false} CoreAscii(text: string, pos: nat, fields: nat)
    requires pos <= |text| && CoreEnd(text, pos, fields).Some?
    ensures pos <= CoreEnd(text, pos, fields).value
    ensures forall i :: pos <= i < CoreEnd(text, pos, fields).value ==> text[i] as int < 128
    decreases fields
  {
    if fields > 0 {
      RunAscii(text, pos, c => Digit(c));
      if fields > 1 {
        CoreAscii(text, RunEnd(text, pos, c => Digit(c)) + 1, fields - 1);
      }
    }
  }

  lemma {:induction false} IdentifiersAscii(text: string, pos: nat, release: bool)
    requires pos <= |text| && IdentifiersEnd(text, pos, release).Some?
    ensures pos <= IdentifiersEnd(text, pos, release).value
    ensures forall i :: pos <= i < IdentifiersEnd(text, pos, release).value ==> text[i] as int < 128
    decreases |text| - pos
  {
    RunAscii(text, pos, c => LowerAlpha(c) || UpperAlpha(c) || Digit(c) || c == '-');
    var end := RunEnd(text, pos, c => LowerAlpha(c) || UpperAlpha(c) || Digit(c) || c == '-');
    if end < |text| && text[end] == '.' {
      IdentifiersAscii(text, end + 1, release);
    }
  }

  lemma VersionAscii(text: string)
    requires ValidVersion(text)
    ensures Ascii(text)
  {
    hide CoreEnd, IdentifiersEnd;
    var core := CoreEnd(text, 0, 3).value;
    CoreAscii(text, 0, 3);
    var pre := SuffixEnd(text, core, '-').value;
    if pre != core {
      IdentifiersAscii(text, core + 1, true);
    }
    if pre != |text| {
      IdentifiersAscii(text, pre + 1, false);
    }
  }

  lemma ExtensionUtf8(e: Extension)
    requires ValidExtension(e)
    ensures Utf8Strings(WriteExtension(e))
  {
    hide Utf8.WellFormed, ValidUuid, ValidName, ValidVersion, ValidHex256;
    UuidUtf8(e.packageId);
    NameUtf8(e.name);
    VersionAscii(e.version);
    AsciiUtf8(e.version);
    NameUtf8(e.artifactSha256);
    UuidUtf8(e.receiptId);
  }

  lemma PrincipalUtf8(p: Principal)
    requires p.Pat? ==> ValidUuid(p.userId) && ValidUuid(p.patId)
    ensures Utf8Strings(WritePrincipal(p))
  {
    hide Utf8.WellFormed, ValidUuid;
    AsciiUtf8("anonymous");
    AsciiUtf8("pat");
    if p.Pat? {
      UuidUtf8(p.userId);
      UuidUtf8(p.patId);
    }
  }

  lemma ContextUtf8(c: ContextData)
    requires ValidContext(c)
    ensures Utf8Strings(WriteContext(c))
  {
    hide Utf8.WellFormed, ValidUuid, ValidExtension, WriteExtension, WritePrincipal, RequestTarget.ValidClaim;
    UuidUtf8(c.dispatchId);
    UuidUtf8(c.ownerEpoch);
    UuidUtf8(c.adapterEpoch);
    UuidUtf8(c.clockDomainId);
    PrintUtf8(c.admittedAt);
    PrintUtf8(c.cutoff);
    ClaimAscii(c.matchedPrefix);
    AsciiUtf8(c.matchedPrefix);
    ExtensionUtf8(c.extension);
    PrincipalUtf8(c.principal);
  }

  lemma HeadersUtf8(headers: seq<Header>)
    requires ValidHeaders(headers)
    ensures Utf8Strings(Arr(WritePairs(headers)))
  {
    hide Utf8.WellFormed, NameText, Utf8.Valid;
    forall i | 0 <= i < |headers|
      ensures Utf8Strings(WritePairs(headers)[i])
    {
      assert WritePairs(headers)[i] == WritePair(headers[i]) && HeaderOk(headers[i]);
      NameUtf8(headers[i].name);
      Utf8.ValidIsWellFormed(headers[i].value);
    }
  }

  lemma BodyUtf8(body: seq<Byte>)
    ensures Utf8Strings(Str(Base64.Encode(body)))
  {
    hide Utf8.WellFormed, Base64.Encode;
    EncodedBody(body);
    AsciiUtf8(Base64.Encode(body));
  }

  lemma RequestUtf8(r: Request)
    requires ValidRequest(r)
    ensures Utf8Strings(WriteRequest(r))
  {
    hide Utf8.WellFormed, ValidUuid, ValidMethod, ValidHeaders, RequestTarget.QueryOk, Base64.Encode;
    UuidUtf8(r.requestId);
    NameUtf8(r.method_);
    QueryAscii(r.query);
    AsciiUtf8(r.query);
    HeadersUtf8(r.headers);
    BodyUtf8(r.body);
  }

  lemma ResponseUtf8(r: Response)
    requires ValidResponse(r)
    ensures Utf8Strings(WriteResponse(r))
  {
    hide Utf8.WellFormed, ValidHeaders, Base64.Encode;
    HeadersUtf8(r.headers);
    BodyUtf8(r.body);
  }

  lemma CommonUtf8(name: string, i: FrameIdentity)
    requires ValidFrameIdentity(i) && Ascii(name)
    ensures |WriteCommon(name, i)| == 6 && forall k :: 0 <= k < 6 ==> Utf8Strings(WriteCommon(name, i)[k].value)
  {
    hide Utf8.WellFormed, ValidUuid, Ascii;
    AsciiUtf8(name);
    UuidUtf8(i.ownerEpoch);
    UuidUtf8(i.adapterEpoch);
    UuidUtf8(i.dispatchId);
    UuidUtf8(i.receiptId);
  }

  lemma HandshakeUtf8(name: string, i: HandshakeIdentity)
    requires ValidHandshake(i) && Ascii(name)
    ensures Utf8Strings(Obj(WriteHandshake(name, i)))
  {
    hide Utf8.WellFormed, ValidUuid, Ascii, ValidExtension, WriteExtension;
    AsciiUtf8(name);
    UuidUtf8(i.ownerEpoch);
    UuidUtf8(i.adapterEpoch);
    UuidUtf8(i.clockDomainId);
    ExtensionUtf8(i.extension);
  }

  lemma OutcomesAscii()
    ensures Ascii("response") && Ascii("error")
  {
  }

  lemma FailureAscii(e: AdapterFailure)
    ensures Ascii(FailureName(e))
  {
    match e
    case HandlerFailed => assert Ascii("handler_failed");
    case ResponseInvalid => assert Ascii("response_invalid");
    case AdapterUnavailable => assert Ascii("adapter_unavailable");
    case ResourceExhausted => assert Ascii("resource_exhausted");
    case ExecutionCancelled => assert Ascii("execution_cancelled");
  }

  lemma CancelAscii(reason: CancelReason)
    ensures Ascii(CancelName(reason))
  {
    match reason
    case Deadline => assert Ascii("deadline");
    case ClientGone => assert Ascii("client_gone");
    case Shutdown => assert Ascii("shutdown");
    case GenerationRetired => assert Ascii("generation_retired");
  }

  lemma HandshakesAscii()
    ensures Ascii("hello") && Ascii("hello_ack") && Ascii("call") && Ascii("accepted")
  {
  }

  lemma TypesAscii()
    ensures Ascii("entered") && Ascii("result") && Ascii("cancel") && Ascii("settled")
  {
  }

  lemma OutcomeUtf8(o: Outcome)
    requires o.Responded? ==> ValidResponse(o.response)
    ensures Utf8Strings(WriteOutcome(o))
  {
    hide Utf8.WellFormed, WriteResponse, ValidResponse, Ascii, FailureName;
    OutcomesAscii();
    AsciiUtf8("response");
    AsciiUtf8("error");
    if o.Responded? {
      ResponseUtf8(o.response);
    } else {
      FailureAscii(o.failure);
      AsciiUtf8(FailureName(o.failure));
    }
  }

  lemma SettlementUtf8(s: Settlement)
    ensures Utf8Strings(WriteSettlement(s))
  {
    hide Utf8.WellFormed;
    AsciiUtf8(SettlementName(s.reason));
    AsciiUtf8(EntryName(s.entry));
    if s.enteredAt.Some? {
      PrintUtf8(s.enteredAt.value);
    }
  }

  /** A frame of the common shape and its further members. */
  lemma RootUtf8(name: string, i: FrameIdentity, extra: seq<Field>)
    requires ValidFrameIdentity(i) && Ascii(name)
    requires forall k :: 0 <= k < |extra| ==> Utf8Strings(extra[k].value)
    ensures Utf8Strings(Obj(WriteCommon(name, i) + extra))
  {
    hide WriteCommon, ValidFrameIdentity, Ascii;
    CommonUtf8(name, i);
    var fields := WriteCommon(name, i) + extra;
    forall k | 0 <= k < |fields|
      ensures Utf8Strings(fields[k].value)
    {
      if k >= 6 {
        assert fields[k] == extra[k - 6];
      }
    }
  }

  lemma PrintString(n: nat)
    ensures Utf8Strings(Str(Decimal.Print(n)))
  {
    PrintUtf8(n);
  }

  lemma CancelString(reason: CancelReason)
    ensures Utf8Strings(Str(CancelName(reason)))
  {
    hide Utf8.WellFormed, Ascii, CancelName;
    CancelAscii(reason);
    AsciiUtf8(CancelName(reason));
  }

  lemma FrameUtf8(f: Frame)
    requires ValidFrame(f)
    ensures Utf8Strings(WriteFrame(f))
  {
    hide Utf8Strings, WriteRequest, WriteContext, WriteOutcome, WriteSettlement, WriteCommon, WriteHandshake,
        MetadataSize;
    hide Ascii, ValidRequest, ValidContext, ValidResponse, ValidHandshake, ValidFrameIdentity, CancelName;
    HandshakesAscii();
    TypesAscii();
    match f
    case Hello(i) => HandshakeUtf8("hello", i);
    case HelloAck(i) => HandshakeUtf8("hello_ack", i);
    case Call(i, r, c) =>
      RequestUtf8(r);
      ContextUtf8(c);
      RootUtf8("call", i, [Field(RequestKey, WriteRequest(r)), Field(ContextKey, WriteContext(c))]);
    case Accepted(i) =>
      RootUtf8("accepted", i, []);
      assert WriteCommon("accepted", i) + [] == WriteCommon("accepted", i);
    case Entered(i, at) =>
      PrintString(at);
      RootUtf8("entered", i, [Text(EnteredAtKey, Decimal.Print(at))]);
    case Answer(i, o) =>
      OutcomeUtf8(o);
      RootUtf8("result", i, [Field(OutcomeKey, WriteOutcome(o))]);
    case Cancel(i, reason) =>
      CancelString(reason);
      RootUtf8("cancel", i, [Text(ReasonKey, CancelName(reason))]);
    case Settled(i, s) =>
      SettlementUtf8(s);
      RootUtf8("settled", i, [Field(SettlementKey, WriteSettlement(s))]);
  }

  // ----- encoding and parsing whole frames -----

  function TextOf(f: Frame): string {
    Dump(WriteFrame(f))
  }

  /** The reader's preflight of what was just written accepts every frame that validates: text bounds and automaton. */
  lemma PreflightNeverRefuses(f: Frame)
    requires ValidFrame(f)
    ensures RawBounds(TextOf(f)) == Ok(()) && Check(WriteFrame(f)).Ok? && 0 < |TextOf(f)| <= MAX_WIRE_BYTES
  {
    hide Dump, Body, ValidFrame, WriteFrame, Schema;
    WrittenFrameIsAccepted(f);
    var j := WriteFrame(f);
    SchemaText(j);
    FrameBody(f);
    FrameUtf8(f);
    SchemaKnown(j);
    DumpUtf8(j);
    Utf8.ValidIsWellFormed(Dump(j));
  }

  /** A document on its own passes the text bounds and the automaton for its role. */
  predicate Passes(role: Role, v: Json) {
    RawBounds(Dump(v)) == Ok(()) && WireDocuments.WireCheck(role, v).Ok?
  }

  /** The request, context or response of a frame that validates is written on its own first, and read on its own last:
      neither is ever refused. */
  lemma PartsNeverRefused(f: Frame, role: Role, v: Json)
    requires ValidFrame(f) && WireDocuments.Part(WriteFrame(f), role, v)
    ensures Passes(role, v)
  {
    hide ValidFrame, WriteFrame, Dump, RawBounds, Check, WireDocuments.WireCheck, WireDocuments.Part, Utf8Strings;
    PreflightNeverRefuses(f);
    FrameUtf8(f);
    WireDocuments.SecondCheckNeverRefuses(WriteFrame(f), role, v);
  }

  /** The documents a frame is put together from. */
  predicate PartsPass(f: Frame) {
    && (f.Call? ==> Passes(RequestRole, WriteRequest(f.request)) && Passes(ContextRole, WriteContext(f.context)))
    && (f.Answer? && f.outcome.Responded? ==> Passes(ResponseRole, WriteResponse(f.outcome.response)))
  }

  lemma PartsOf(f: Frame)
    ensures f.Call? ==> WireDocuments.Part(WriteFrame(f), RequestRole, WriteRequest(f.request))
                        && WireDocuments.Part(WriteFrame(f), ContextRole, WriteContext(f.context))
    ensures f.Answer? && f.outcome.Responded? ==>
              WireDocuments.Part(WriteFrame(f), ResponseRole, WriteResponse(f.outcome.response))
  {
    hide WriteRequest, WriteContext, WriteResponse;
    if f.Call? {
      var fields := WriteFrame(f).fields;
      assert fields[6] == Field(RequestKey, WriteRequest(f.request));
      assert fields[7] == Field(ContextKey, WriteContext(f.context));
    } else if f.Answer? && f.outcome.Responded? {
      var outcome := WriteOutcome(f.outcome);
      assert WriteFrame(f).fields[6] == Field(OutcomeKey, outcome);
      assert outcome.fields[1] == Field(ResponseKey, WriteResponse(f.outcome.response));
      assert WireDocuments.Member(WriteFrame(f), OutcomeKey, outcome);
    }
  }

  lemma PartsOfValid(f: Frame)
    requires ValidFrame(f)
    ensures PartsPass(f)
  {
    hide ValidFrame, WriteFrame, WriteRequest, WriteContext, WriteResponse, Passes, WireDocuments.Part;
    PartsOf(f);
    if f.Call? {
      PartsNeverRefused(f, RequestRole, WriteRequest(f.request));
      PartsNeverRefused(f, ContextRole, WriteContext(f.context));
    } else if f.Answer? && f.outcome.Responded? {
      PartsNeverRefused(f, ResponseRole, WriteResponse(f.outcome.response));
    }
  }

  lemma SchemaKnown(j: Json)
    requires Schema(j)
    ensures Known(j)
  {
    hide RecordFits;
    RecordKnown(RootRole, j);
  }

  function Bytes(text: string): (bytes: seq<Byte>)
    requires forall i :: 0 <= i < |text| ==> text[i] as int < 256
    ensures |bytes| == |text| && forall i :: 0 <= i < |text| ==> bytes[i] == text[i] as int
  {
    if text == "" then [] else Bytes(text[..|text| - 1]) + [text[|text| - 1] as int]
  }

  function Chars(bytes: seq<Byte>): (text: string)
    ensures |text| == |bytes| && forall i :: 0 <= i < |bytes| ==> text[i] as int == bytes[i]
  {
    if bytes == [] then "" else Chars(bytes[..|bytes| - 1]) + [bytes[|bytes| - 1] as char]
  }

  lemma {:induction false} Utf8Bytes(text: string)
    requires Utf8.Valid(text)
    ensures forall i :: 0 <= i < |text| ==> text[i] as int < 256
  {
    if text != "" {
      HeadBytes(text);
      var n := Utf8.LeadLength(text[0]);
      Utf8Bytes(text[n..]);
      assert text == text[..n] + text[n..];
    }
  }

  lemma HeadBytes(text: string)
    requires text != "" && Utf8.Head(text)
    ensures 0 < Utf8.LeadLength(text[0]) <= |text|
    ensures forall i :: 0 <= i < Utf8.LeadLength(text[0]) ==> text[i] as int < 256
  {
    hide Utf8.Head;
    Utf8.HeadSound(text);
    var n := Utf8.LeadLength(text[0]);
    var x := Utf8.Gathered(text, n - 1);
    assert text[..n] == Utf8.Encode(x);
    forall i | 0 <= i < n
      ensures text[i] as int < 256
    {
      assert text[i] == text[..n][i];
    }
  }

  /** The bytes of a frame on the wire: the length of its text, then the text. */
  ghost predicate Sent(f: Frame, raw: seq<Byte>) {
    |raw| >= 4 && FrameLength.Framed(raw, raw[4..]) && Chars(raw[4..]) == TextOf(f)
  }

  /** Every frame that validates can be sent: the documents it consists of pass on their own, and its text fits behind a
      length. */
  lemma EncodeSucceeds(f: Frame) returns (raw: seq<Byte>)
    requires ValidFrame(f)
    ensures PartsPass(f) && Sent(f, raw)
  {
    hide ValidFrame, TextOf, RawBounds, Check, PartsPass, Utf8.Valid, FrameLength.Header;
    PartsOfValid(f);
    PreflightNeverRefuses(f);
    ValidText(TextOf(f));
    Utf8Bytes(TextOf(f));
    var payload := Bytes(TextOf(f));
    FrameLength.HeaderSize(|payload|);
    raw := FrameLength.Header(|payload|) + payload;
    assert raw[4..] == payload;
    assert Chars(payload) == TextOf(f);
  }

  lemma ValidText(text: string)
    requires RawBounds(text).Ok?
    ensures Utf8.Valid(text)
  {
  }

  /** Whoever takes the payload out of a buffer with a valid frame gets the text of the document it was written as:
      within the bounds, accepted by the automaton, and read back as the same frame. */
  lemma WireRoundTrip(f: Frame, raw: seq<Byte>, payload: seq<Byte>)
    requires ValidFrame(f) && Sent(f, raw) && FrameLength.Framed(raw, payload)
    ensures Chars(payload) == Dump(WriteFrame(f)) && RawBounds(Chars(payload)) == Ok(())
    ensures FrameReader.ParseFrame(WriteFrame(f)) == Some(f)
  {
    hide ValidFrame, WriteFrame, Dump, RawBounds;
    FrameLength.FramedIsUnique(raw, payload, raw[4..]);
    PreflightNeverRefuses(f);
    FrameReader.FrameRoundTrip(f);
  }
}
