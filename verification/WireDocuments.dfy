/** The documents inside frames on their own (codec.cpp: Preflight, read_json, write_json).  A request, a context or a
    response is written to text and checked by a second automaton before it becomes part of a frame, and again after
    it was taken out of one.  That automaton knows less of the schema; it refuses nothing the frame's one accepted. */
module WireDocuments {
  import opened Wrappers
  import opened Preflight
  import opened FrameText
  import FrameRecords
  import Utf8

  // ----- the second automaton -----

  datatype Open = Open(role: Role, keys: seq<Key>, key: Option<Key>)

  datatype Progress = Progress(stack: seq<Open>, nodes: nat, metadata: nat)

  type Sight = Result<Progress, CodecError>

  const BEGIN := Progress([], 0, 0)

  /** The documents that are checked on their own. */
  predicate Wire(role: Role) {
    role == RequestRole || role == ResponseRole || role == ContextRole
  }

  function Last(st: Progress): Open
    requires st.stack != []
  {
    st.stack[|st.stack| - 1]
  }

  function Opened(st: Progress, role: Role): Progress {
    st.(stack := st.stack + [Open(role, [], None)])
  }

  function Value(st: Progress): Sight {
    if |st.stack| >= MAX_DEPTH || st.nodes == MAX_NODES then Err(TooLarge) else Ok(st.(nodes := st.nodes + 1))
  }

  function ReadText(st: Progress, text: string): Sight {
    if st.stack != [] && Last(st).key == Some(BodyKey) then Ok(st)
    else if st.metadata + |text| > MAX_METADATA_BYTES then Err(TooLarge)
    else Ok(st.(metadata := st.metadata + |text|))
  }

  function OpenObject(root: Role, st: Progress): Sight {
    if st.stack == [] then Ok(Opened(st, root))
    else if Last(st).role != ContextRole then Err(Invalid)
    else if Last(st).key == Some(PrincipalKey) then Ok(Opened(st, PrincipalRole))
    else if Last(st).key == Some(ExtensionKey) then Ok(Opened(st, ExtensionRole))
    else Err(Invalid)
  }

  function OpenArray(st: Progress): Sight {
    if st.stack == [] then Err(Invalid)
    else if Last(st).role == HeadersRole then Ok(Opened(st, PairRole))
    else if IsHeaders(Last(st).role, Last(st).key) then Ok(Opened(st, HeadersRole))
    else Err(Invalid)
  }

  function ReadKey(st: Progress, key: Key): Sight {
    if st.stack == [] || !Allowed(Last(st).role, key) || key in Last(st).keys then Err(Invalid)
    else
      var s := Last(st);
      Ok(st.(stack := st.stack[|st.stack| - 1 := s.(keys := s.keys + [key], key := Some(key))]))
  }

  function Close(st: Progress): Sight {
    if st.stack == [] then Err(Invalid) else Ok(st.(stack := st.stack[..|st.stack| - 1]))
  }

  function See(root: Role, st: Progress, e: Sax): Sight {
    match e
    case SeeString(text) => var v := Value(st); if v.Err? then v else ReadText(v.value, text)
    case StartObject => var v := Value(st); if v.Err? then v else OpenObject(root, v.value)
    case StartArray => var v := Value(st); if v.Err? then v else OpenArray(v.value)
    case SeeKey(key) => ReadKey(st, key)
    case EndObject => Close(st)
    case EndArray => Close(st)
    case _ => Value(st)
  }

  function SeeAll(root: Role, r: Sight, es: seq<Sax>): Sight
    decreases |es|
  {
    if es == [] || r.Err? then r else SeeAll(root, See(root, r.value, es[0]), es[1..])
  }

  function WireCheck(root: Role, j: Json): Sight {
    SeeAll(root, Ok(BEGIN), Events(j))
  }

  // ----- it accepts every document that fits -----

  /** A record or list of one of these documents is open, not too deep. */
  predicate Ready(st: Progress) {
    && st.stack != [] && |st.stack| <= Depth(Last(st).role)
    && Last(st).role !in {RootRole, OutcomeRole, SettlementRole}
    && (Last(st).key == Some(BodyKey) ==> IsBody(Last(st).role, Last(st).key))
  }

  /** There is room for so many more nodes and bytes. */
  predicate Room(st: Progress, nodes: nat, metadata: nat) {
    st.nodes + nodes <= MAX_NODES && st.metadata + metadata <= MAX_METADATA_BYTES
  }

  function After(st: Progress, nodes: nat, metadata: nat): Progress {
    st.(nodes := st.nodes + nodes, metadata := st.metadata + metadata)
  }

  function Left(st: Progress, nodes: nat, metadata: nat): Progress
    requires st.stack != []
  {
    Progress(st.stack[..|st.stack| - 1], st.nodes + nodes, st.metadata + metadata)
  }

  lemma {:induction false} SeeConcat(root: Role, r: Sight, a: seq<Sax>, b: seq<Sax>)
    ensures SeeAll(root, r, a + b) == SeeAll(root, SeeAll(root, r, a), b)
    decreases |a|
  {
    hide See;
    if a == [] {
      assert a + b == b;
    } else if r.Ok? {
      assert (a + b)[1..] == a[1..] + b;
      SeeConcat(root, See(root, r.value, a[0]), a[1..], b);
    }
  }

  lemma SeeOne(root: Role, st: Progress, e: Sax, es: seq<Sax>)
    ensures SeeAll(root, Ok(st), [e] + es) == SeeAll(root, See(root, st, e), es)
    ensures SeeAll(root, Ok(st), [e]) == See(root, st, e)
  {
    hide See;
    assert ([e] + es)[1..] == es && [e][1..] == [];
  }

  lemma LeafSeen(root: Role, st: Progress, j: Json)
    requires Ready(st) && !j.Arr? && !j.Obj? && Fits(Last(st).role, Last(st).key, j)
    requires Room(st, Nodes(j), Weight(Last(st).role, Last(st).key, j))
    ensures SeeAll(root, Ok(st), Events(j)) == Ok(After(st, Nodes(j), Weight(Last(st).role, Last(st).key, j)))
  {
    hide SeeAll;
    SeeOne(root, st, Events(j)[0], []);
  }

  lemma {:induction false} ValueSeen(root: Role, st: Progress, j: Json)
    requires Ready(st) && Fits(Last(st).role, Last(st).key, j)
    requires Room(st, Nodes(j), Weight(Last(st).role, Last(st).key, j))
    ensures SeeAll(root, Ok(st), Events(j)) == Ok(After(st, Nodes(j), Weight(Last(st).role, Last(st).key, j)))
    decreases j
  {
    match j
    case Arr(_) => ArraySeen(root, st, j);
    case Obj(_) => ObjectSeen(root, st, j);
    case _ => LeafSeen(root, st, j);
  }

  lemma {:induction false} ArraySeen(root: Role, st: Progress, j: Json)
    requires Ready(st) && j.Arr? && Fits(Last(st).role, Last(st).key, j)
    requires Room(st, Nodes(j), Weight(Last(st).role, Last(st).key, j))
    ensures SeeAll(root, Ok(st), Events(j)) == Ok(After(st, Nodes(j), Weight(Last(st).role, Last(st).key, j)))
    decreases j, |j.items| + 2
  {
    hide SeeAll, See, Fits, Weight, Nodes, ItemWeight, ItemNodes, ItemEvents, ItemsFit;
    hide Depth, IsHeaders;
    ArrayMeans(Last(st).role, Last(st).key, j);
    ArrayOpens(root, st);
    SeeOne(root, st, StartArray, ItemEvents(j, 0));
    var inside := See(root, st, StartArray).value;
    ItemsSeen(root, inside, j, 0);
    assert inside.stack[..|st.stack|] == st.stack;
  }

  lemma {:induction false} ObjectSeen(root: Role, st: Progress, j: Json)
    requires Ready(st) && j.Obj? && Fits(Last(st).role, Last(st).key, j)
    requires Room(st, Nodes(j), Weight(Last(st).role, Last(st).key, j))
    ensures SeeAll(root, Ok(st), Events(j)) == Ok(After(st, Nodes(j), Weight(Last(st).role, Last(st).key, j)))
    decreases j, |j.fields| + 2
  {
    hide SeeAll, See, Fits, Weight, Nodes, FieldWeight, FieldNodes, FieldEvents, FieldsFit, Closed;
    ObjectMeans(Last(st).role, Last(st).key, j);
    ObjectOpens(root, st);
    SeeOne(root, st, StartObject, FieldEvents(j, 0));
    var inside := See(root, st, StartObject).value;
    FieldsSeen(root, inside, j, 0);
    assert inside.stack[..|st.stack|] == st.stack;
  }

  lemma ArrayOpens(root: Role, st: Progress)
    requires Ready(st) && st.nodes < MAX_NODES
    requires IsHeaders(Last(st).role, Last(st).key) || Last(st).role == HeadersRole
    ensures var role := ItemRole(Last(st).role, Last(st).key);
            See(root, st, StartArray) == Ok(Opened(st.(nodes := st.nodes + 1), role))
            && Ready(Opened(st.(nodes := st.nodes + 1), role))
  {
  }

  lemma ObjectOpens(root: Role, st: Progress)
    requires Ready(st) && st.nodes < MAX_NODES && SubRole(Last(st).role, Last(st).key).Some?
    ensures var role := SubRole(Last(st).role, Last(st).key).value;
            See(root, st, StartObject) == Ok(Opened(st.(nodes := st.nodes + 1), role))
            && Ready(Opened(st.(nodes := st.nodes + 1), role))
  {
  }

  lemma {:induction false} ItemsSeen(root: Role, st: Progress, j: Json, i: nat)
    requires Ready(st) && j.Arr? && i <= |j.items| && Last(st).key.None? && ItemsFit(Last(st).role, j, i)
    requires Room(st, ItemNodes(j, i), ItemWeight(Last(st).role, j, i))
    ensures SeeAll(root, Ok(st), ItemEvents(j, i))
         == Ok(Left(st, ItemNodes(j, i), ItemWeight(Last(st).role, j, i)))
    decreases j, |j.items| - i + 1
  {
    hide SeeAll, Events, Fits, Nodes, Weight, Ready;
    assert st.stack != [] by { IsReady(st); }
    if i == |j.items| {
      SeeOne(root, st, EndArray, []);
    } else {
      var v, role := j.items[i], Last(st).role;
      SeeConcat(root, Ok(st), Events(v), ItemEvents(j, i + 1));
      ValueSeen(root, st, v);
      var next := After(st, Nodes(v), Weight(role, None, v));
      IsReady(st);
      IsReady(next);
      ItemsSeen(root, next, j, i + 1);
    }
  }

  lemma IsReady(st: Progress)
    ensures Ready(st) <==>
              && st.stack != [] && |st.stack| <= Depth(Last(st).role)
              && Last(st).role !in {RootRole, OutcomeRole, SettlementRole}
              && (Last(st).key == Some(BodyKey) ==> IsBody(Last(st).role, Last(st).key))
  {
  }

  lemma KeySeen(root: Role, st: Progress, key: Key)
    requires Ready(st) && Allowed(Last(st).role, key) && key !in Last(st).keys
    ensures var r := See(root, st, SeeKey(key));
            && r.Ok? && Ready(r.value) && r.value.nodes == st.nodes && r.value.metadata == st.metadata
            && Last(r.value) == Open(Last(st).role, Last(st).keys + [key], Some(key))
            && r.value.stack[..|r.value.stack| - 1] == st.stack[..|st.stack| - 1]
  {
  }

  lemma {:induction false} FieldsSeen(root: Role, st: Progress, j: Json, i: nat)
    requires Ready(st) && j.Obj? && i <= |j.fields| && FieldsFit(Last(st).role, j, i) && Last(st).keys == Keys(j, i)
    requires Room(st, FieldNodes(j, i), FieldWeight(Last(st).role, j, i))
    ensures SeeAll(root, Ok(st), FieldEvents(j, i))
         == Ok(Left(st, FieldNodes(j, i), FieldWeight(Last(st).role, j, i)))
    decreases j, |j.fields| - i + 1
  {
    hide SeeAll, Events, Fits, Nodes, Weight, Allowed, FieldsFit, FieldNodes, FieldWeight, FieldEvents;
    if i == |j.fields| {
      NoMembers(Last(st).role, j);
      SeeOne(root, st, EndObject, []);
    } else {
      hide See;
      var key, v, role := j.fields[i].key, j.fields[i].value, Last(st).role;
      var rest := FieldEvents(j, i + 1);
      MembersFrom(role, j, i);
      SeeOne(root, st, SeeKey(key), Events(v) + rest);
      KeySeen(root, st, key);
      var named := See(root, st, SeeKey(key)).value;
      SeeConcat(root, Ok(named), Events(v), rest);
      ValueSeen(root, named, v);
      FieldsSeen(root, After(named, Nodes(v), Weight(role, Some(key), v)), j, i + 1);
    }
  }

  lemma Begins(root: Role)
    requires Wire(root)
    ensures See(root, BEGIN, StartObject) == Ok(Progress([Open(root, [], None)], 1, 0))
    ensures Ready(Progress([Open(root, [], None)], 1, 0))
  {
    assert [] + [Open(root, [], None)] == [Open(root, [], None)];
  }

  /** The second automaton accepts every document that the first one accepts in its place, with the same counts. */
  lemma WireAccepts(root: Role, j: Json)
    requires Wire(root) && j.Obj? && RecordFits(root, j)
    requires Nodes(j) <= MAX_NODES && FieldWeight(root, j, 0) <= MAX_METADATA_BYTES
    ensures WireCheck(root, j) == Ok(Progress([], Nodes(j), FieldWeight(root, j, 0)))
  {
    hide SeeAll, See, Events, Nodes, Ready, FieldEvents, FieldNodes, FieldWeight, FieldsFit, Closed;
    ObjectMeans(root, None, j);
    Begins(root);
    var st := Progress([Open(root, [], None)], 1, 0);
    SeeOne(root, BEGIN, StartObject, FieldEvents(j, 0));
    FieldsSeen(root, st, j, 0);
    assert Left(st, FieldNodes(j, 0), FieldWeight(root, j, 0)) == Progress([], Nodes(j), FieldWeight(root, j, 0));
    assert WireCheck(root, j) == SeeAll(root, Ok(st), FieldEvents(j, 0));
  }

  // ----- the parts of a frame -----

  predicate Member(j: Json, key: Key, v: Json) {
    j.Obj? && Field(key, v) in j.fields
  }

  /** The documents of a frame that are read and written on their own. */
  ghost predicate Part(j: Json, role: Role, v: Json) {
    || (role == RequestRole && Member(j, RequestKey, v))
    || (role == ContextRole && Member(j, ContextKey, v))
    || (role == ResponseRole && exists outcome :: Member(j, OutcomeKey, outcome) && Member(outcome, ResponseKey, v))
  }

  /** What a part needs of the whole. */
  ghost predicate Sound(role: Role, j: Json) {
    && j.Obj? && RecordFits(role, j) && Nodes(j) <= MAX_NODES && FieldWeight(role, j, 0) <= MAX_METADATA_BYTES
    && Utf8Strings(j) && Body(j, None).Ok?
  }

  lemma {:induction false} MemberCounts(role: Role, j: Json, i: nat, k: nat)
    requires j.Obj? && i <= k < |j.fields|
    ensures Nodes(j.fields[k].value) <= FieldNodes(j, i)
    ensures Weight(role, Some(j.fields[k].key), j.fields[k].value) <= FieldWeight(role, j, i)
    decreases k - i
  {
    hide Nodes, Weight;
    if i < k {
      MemberCounts(role, j, i + 1, k);
    }
  }

  /** Once a body is known, a value that may follow has none of its own. */
  lemma {:induction false} NoSecondBody(j: Json, n: Length)
    requires Body(j, Some(n)).Ok?
    ensures Body(j, Some(n)) == Ok(Some(n)) && Body(j, None) == Ok(None)
    decreases j
  {
    hide ItemsBody, FieldsBody;
    match j
    case Arr(_) => NoBodyInItems(j, 0, n);
    case Obj(_) => NoBodyInFields(j, 0, n);
    case _ =>
  }

  lemma {:induction false} NoBodyInItems(j: Json, i: nat, n: Length)
    requires j.Arr? && i <= |j.items| && ItemsBody(j, i, Some(n)).Ok?
    ensures ItemsBody(j, i, Some(n)) == Ok(Some(n)) && ItemsBody(j, i, None) == Ok(None)
    decreases j, |j.items| - i + 1
  {
    hide Body;
    if i < |j.items| {
      NoSecondBody(j.items[i], n);
      NoBodyInItems(j, i + 1, n);
    }
  }

  lemma {:induction false} NoBodyInFields(j: Json, i: nat, n: Length)
    requires j.Obj? && i <= |j.fields| && FieldsBody(j, i, Some(n)).Ok?
    ensures FieldsBody(j, i, Some(n)) == Ok(Some(n)) && FieldsBody(j, i, None) == Ok(None)
    decreases j, |j.fields| - i + 1
  {
    hide Body;
    if i < |j.fields| {
      assert j.fields[i].key != BodyKey;
      NoSecondBody(j.fields[i].value, n);
      NoBodyInFields(j, i + 1, n);
    }
  }

  lemma {:induction false} MemberBody(j: Json, i: nat, k: nat, body: Option<Length>)
    requires j.Obj? && i <= k < |j.fields| && j.fields[k].key != BodyKey && FieldsBody(j, i, body).Ok?
    ensures Body(j.fields[k].value, None).Ok?
    decreases k - i
  {
    hide Body, BodyValue;
    var f := j.fields[i];
    if i < k {
      MemberBody(j, i + 1, k, (if f.key == BodyKey then BodyValue(f.value, body) else Body(f.value, body)).value);
    } else if body.Some? {
      NoSecondBody(f.value, body.value);
    }
  }

  lemma SoundMember(role: Role, j: Json, key: Key, v: Json)
    requires Sound(role, j) && Member(j, key, v) && SubRole(role, Some(key)).Some?
    ensures Sound(SubRole(role, Some(key)).value, v)
  {
    hide FieldsFit, Closed, FieldWeight, FieldNodes, FieldsBody, Fits, Nodes, Weight, RecordFits;
    var k :| 0 <= k < |j.fields| && j.fields[k] == Field(key, v);
    assert Fits(role, Some(key), v) by {
      RecordMember(role, j, k);
    }
    OnlyObject(role, key, v);
    ObjectMeans(role, Some(key), v);
    MemberCounts(role, j, 0, k);
    ObjectMeans(RootRole, None, j);
    MemberBody(j, 0, k, None);
  }

  lemma RecordMember(role: Role, j: Json, k: nat)
    requires j.Obj? && RecordFits(role, j) && k < |j.fields|
    ensures Fits(role, Some(j.fields[k].key), j.fields[k].value)
  {
    hide Fits, FieldsFit, Closed;
    FrameRecords.FieldFits(role, j, 0, k);
  }

  lemma OnlyObject(role: Role, key: Key, v: Json)
    requires SubRole(role, Some(key)).Some? && Fits(role, Some(key), v)
    ensures v.Obj?
  {
  }

  /** The second check, of the text and by the automaton. */
  lemma SoundIsAccepted(role: Role, v: Json)
    requires Wire(role) && Sound(role, v)
    ensures RawBounds(Dump(v)) == Ok(()) && WireCheck(role, v).Ok?
  {
    hide RecordFits, Nodes, FieldWeight, Body, Dump, WireCheck, Utf8Strings, Utf8.Valid, Utf8.WellFormed;
    WireAccepts(role, v);
    RecordText(role, v);
    RecordKnown(role, v);
    DumpUtf8(v);
    Utf8.ValidIsWellFormed(Dump(v));
  }

  /** No part of a document whose text and events passed the checks of frames is refused by the second ones, whether
      it is taken out of a frame or about to be put into one. */
  lemma SecondCheckNeverRefuses(j: Json, role: Role, v: Json)
    requires RawBounds(Dump(j)).Ok? && Check(j).Ok? && Utf8Strings(j) && Part(j, role, v)
    ensures RawBounds(Dump(v)) == Ok(()) && WireCheck(role, v).Ok?
  {
    hide RecordFits, Nodes, FieldWeight, Body, Dump, WireCheck, Utf8Strings, RawBounds, Check, Sound, Member;
    CheckIsSchema(j);
    SchemaText(j);
    assert Sound(RootRole, j) by { SchemaIsSound(j); }
    if role == RequestRole {
      SoundMember(RootRole, j, RequestKey, v);
    } else if role == ContextRole {
      SoundMember(RootRole, j, ContextKey, v);
    } else {
      var outcome :| Member(j, OutcomeKey, outcome) && Member(outcome, ResponseKey, v);
      SoundMember(RootRole, j, OutcomeKey, outcome);
      SoundMember(OutcomeRole, outcome, ResponseKey, v);
    }
    SoundIsAccepted(role, v);
  }

  lemma SchemaIsSound(j: Json)
    requires Schema(j) && Utf8Strings(j) && Body(j, None).Ok?
    ensures Sound(RootRole, j)
  {
    hide RecordFits, Nodes, FieldWeight, Body, Utf8Strings;
  }

  // ----- the second automaton as an object -----

  class Checker {
    const root: Role
    var stack: seq<Open>
    var nodes: nat
    var metadata: nat
    var error: CodecError

    function View(): Progress
      reads this
    {
      Progress(stack, nodes, metadata)
    }

    constructor (root: Role)
      ensures this.root == root && View() == BEGIN && error == Invalid
    {
      this.root := root;
      stack, nodes, metadata, error := [], 0, 0, Invalid;
    }

    predicate Agrees(ok: bool, r: Sight)
      reads this
    {
      if ok then r == Ok(View()) && error == Invalid else r == Err(error)
    }

    method CountValue() returns (ok: bool)
      requires error == Invalid
      modifies this`nodes, this`error
      ensures Agrees(ok, Value(old(View())))
    {
      if |stack| >= MAX_DEPTH || nodes == MAX_NODES {
        error := TooLarge;
        return false;
      }
      nodes := nodes + 1;
      ok := true;
    }

    method SawString(text: string) returns (ok: bool)
      requires error == Invalid
      modifies this
      ensures Agrees(ok, See(root, old(View()), SeeString(text)))
    {
      ok := CountValue();
      if ok && (stack == [] || stack[|stack| - 1].key != Some(BodyKey)) {
        if metadata + |text| > MAX_METADATA_BYTES {
          error := TooLarge;
          return false;
        }
        metadata := metadata + |text|;
      }
    }

    method BeginObject() returns (ok: bool)
      requires error == Invalid
      modifies this
      ensures Agrees(ok, See(root, old(View()), StartObject))
    {
      ok := CountValue();
      if !ok {
        return;
      }
      var next := root;
      if stack != [] {
        var parent := stack[|stack| - 1];
        if parent.role != ContextRole {
          return false;
        }
        if parent.key == Some(PrincipalKey) {
          next := PrincipalRole;
        } else if parent.key == Some(ExtensionKey) {
          next := ExtensionRole;
        } else {
          return false;
        }
      }
      stack := stack + [Open(next, [], None)];
    }

    method BeginArray() returns (ok: bool)
      requires error == Invalid
      modifies this
      ensures Agrees(ok, See(root, old(View()), StartArray))
    {
      ok := CountValue();
      if !ok || stack == [] {
        return false;
      }
      var parent := stack[|stack| - 1];
      if parent.role == HeadersRole {
        stack := stack + [Open(PairRole, [], None)];
      } else if IsHeaders(parent.role, parent.key) {
        stack := stack + [Open(HeadersRole, [], None)];
      } else {
        return false;
      }
    }

    method SawKey(key: Key) returns (ok: bool)
      requires error == Invalid
      modifies this`stack
      ensures Agrees(ok, See(root, old(View()), SeeKey(key)))
    {
      if stack == [] {
        return false;
      }
      var s := stack[|stack| - 1];
      if !Allowed(s.role, key) || key in s.keys {
        return false;
      }
      stack := stack[|stack| - 1 := s.(keys := s.keys + [key], key := Some(key))];
      ok := true;
    }

    method Pop() returns (ok: bool)
      requires error == Invalid
      modifies this`stack
      ensures Agrees(ok, Close(old(View())))
    {
      if stack == [] {
        return false;
      }
      stack := stack[..|stack| - 1];
      ok := true;
    }

    method OnEvent(e: Sax) returns (ok: bool)
      requires error == Invalid
      modifies this
      ensures Agrees(ok, See(root, old(View()), e))
    {
      hide Value, ReadText, OpenObject, OpenArray, ReadKey, Close;
      match e
      case SeeString(text) => ok := SawString(text);
      case StartObject => ok := BeginObject();
      case StartArray => ok := BeginArray();
      case SeeKey(key) => ok := SawKey(key);
      case EndObject => ok := Pop();
      case EndArray => ok := Pop();
      case _ => ok := CountValue();
    }
  }

  /** The document's events in turn, up to the first one refused. */
  method CheckDocument(root: Role, j: Json) returns (r: Result<(), CodecError>)
    requires Wire(root)
    ensures r.Err? ==> WireCheck(root, j) == Err(r.error)
    ensures r.Ok? ==> WireCheck(root, j).Ok?
    ensures j.Obj? && RecordFits(root, j) && Nodes(j) <= MAX_NODES && FieldWeight(root, j, 0) <= MAX_METADATA_BYTES
            ==> r.Ok?
  {
    hide See, RecordFits, Nodes, FieldWeight;
    var checker := new Checker(root);
    var events := Events(j);
    var i := 0;
    assert events[0..] == events;
    while i < |events|
      invariant i <= |events| && checker.error == Invalid && checker.root == root
      invariant WireCheck(root, j) == SeeAll(root, Ok(checker.View()), events[i..])
      modifies checker
    {
      assert events[i..][1..] == events[i + 1..];
      var ok := checker.OnEvent(events[i]);
      if !ok {
        if j.Obj? && RecordFits(root, j) && Nodes(j) <= MAX_NODES && FieldWeight(root, j, 0) <= MAX_METADATA_BYTES {
          WireAccepts(root, j);
        }
        return Err(checker.error);
      }
      i := i + 1;
    }
    r := Ok(());
  }
}
