/** The client cache controller (client/shell/client/data-controller.js: createDataController, rowsById, operations).
    One object owns a cached view of a channel: it fetches snapshots, applies small local edits from change events, and
    re-queries after a debounce.  Requests, responses, timers and events arrive in any order. */
module DataController {
  import opened Wrappers

  type Id = nat

  /** A row of a snapshot: `key` is None when it is not an object with a usable id. */
  datatype Row = Row(key: Option<Id>, body: int)
  datatype Data = NotArray(raw: int) | Rows(rows: seq<Row>)

  datatype Kind = Insert | Update | Delete | Unknown
  /** `ids` as received: missing, not an array, or a list whose entries may be malformed. */
  datatype Ids = NoIds | BadIds | Ids(list: seq<Option<Id>>)
  datatype Op = Op(kind: Kind, truncated: bool, count: int, ids: Ids)

  /** What the view's insertRows adapter gave back, captured as plain data. */
  datatype Adapter = NoAdapter | Threw | Unusable | Captured(rows: seq<Row>)

  // ----- rows and operations -----

  predicate Belongs(where: Option<set<Id>>, id: Id) {
    where.None? || id in where.value
  }

  predicate RowOk(where: Option<set<Id>>, r: Row) {
    r.key.Some? && Belongs(where, r.key.value)
  }

  /** A usable baseline: an array of in-view rows with distinct ids. */
  predicate ValidRows(data: Data, where: Option<set<Id>>) {
    && data.Rows?
    && (forall i :: 0 <= i < |data.rows| ==> RowOk(where, data.rows[i]))
    && (forall i, j :: 0 <= i < j < |data.rows| ==> data.rows[i].key != data.rows[j].key)
  }

  function KeysOf(rows: seq<Row>): set<Id> {
    set r | r in rows && r.key.Some? :: r.key.value
  }

  method RowsById(data: Data, where: Option<set<Id>>) returns (index: Option<map<Id, Row>>)
    ensures index.Some? <==> ValidRows(data, where)
    ensures index.Some? ==> index.value.Keys == KeysOf(data.rows)
    ensures index.Some? ==> forall i :: 0 <= i < |data.rows| ==>
              data.rows[i].key.Some? && data.rows[i].key.value in index.value
                  && index.value[data.rows[i].key.value] == data.rows[i]
  {
    if data.NotArray? {
      return None;
    }
    hide KeysOf, RowOk;
    var rows: map<Id, Row> := map[];
    NoKeys();
    for i := 0 to |data.rows|
      invariant Indexed(data.rows[..i], rows, where)
    {
      var row := data.rows[i];
      if row.key.None? || !Belongs(where, row.key.value) {
        BadRow(data, i, where);
        return None;
      }
      if row.key.value in rows {
        RepeatedRow(data, i, rows, where);
        return None;
      }
      IndexOneMore(data.rows, i, rows, where);
      rows := rows[row.key.value := row];
    }
    assert data.rows[..|data.rows|] == data.rows;
    index := Some(rows);
  }

  /** The rows so far are usable and `index` has each under its id. */
  ghost predicate Indexed(rows: seq<Row>, index: map<Id, Row>, where: Option<set<Id>>) {
    && ValidRows(Rows(rows), where) && index.Keys == KeysOf(rows)
    && forall k :: 0 <= k < |rows| ==>
         rows[k].key.Some? && rows[k].key.value in index && index[rows[k].key.value] == rows[k]
  }

  lemma NoKeys()
    ensures KeysOf([]) == {}
  {
  }

  lemma BadRow(data: Data, i: nat, where: Option<set<Id>>)
    requires data.Rows? && i < |data.rows| && !RowOk(where, data.rows[i])
    ensures !ValidRows(data, where)
  {
  }

  lemma RepeatedRow(data: Data, i: nat, index: map<Id, Row>, where: Option<set<Id>>)
    requires data.Rows? && i < |data.rows| && Indexed(data.rows[..i], index, where)
    requires data.rows[i].key.Some? && data.rows[i].key.value in index
    ensures !ValidRows(data, where)
  {
    var r :| r in data.rows[..i] && r.key.Some? && r.key.value == data.rows[i].key.value;
    var k :| 0 <= k < i && data.rows[k] == r;
    assert data.rows[k].key == data.rows[i].key;
  }

  lemma IndexOneMore(rows: seq<Row>, i: nat, index: map<Id, Row>, where: Option<set<Id>>)
    requires i < |rows| && Indexed(rows[..i], index, where) && RowOk(where, rows[i]) && rows[i].key.value !in index
    ensures Indexed(rows[..i + 1], index[rows[i].key.value := rows[i]], where)
  {
    hide RowOk;
    assert rows[i].key.Some? by { RowHasKey(where, rows[i]); }
    assert rows[..i + 1] == rows[..i] + [rows[i]];
    assert KeysOf(rows[..i + 1]) == KeysOf(rows[..i]) + {rows[i].key.value};
    hide KeysOf;
    var next, before, now := index[rows[i].key.value := rows[i]], rows[..i], rows[..i + 1];
    forall k | 0 <= k < |now|
      ensures now[k].key.Some? && now[k].key.value in next && next[now[k].key.value] == now[k] && RowOk(where, now[k])
    {
      assert k < i ==> before[k] == now[k];
    }
  }

  lemma RowHasKey(where: Option<set<Id>>, r: Row)
    requires RowOk(where, r)
    ensures r.key.Some?
  {
  }

  function IdList(op: Op): seq<Option<Id>> {
    if op.ids.Ids? then op.ids.list else []
  }

  /** All ids of an event, in order. */
  function AllIds(ops: seq<Op>): seq<Option<Id>> {
    if ops == [] then [] else AllIds(ops[..|ops| - 1]) + IdList(ops[|ops| - 1])
  }

  predicate OpOk(op: Op) {
    && op.kind != Unknown && !op.truncated && op.count >= 0
    && (op.count > 0 ==> op.ids.Ids?)
    && (op.ids != NoIds ==> op.ids.Ids? && |op.ids.list| == op.count)
  }

  predicate Distinct(ids: seq<Option<Id>>) {
    && (forall i :: 0 <= i < |ids| ==> ids[i].Some?)
    && (forall i, j :: 0 <= i < j < |ids| ==> ids[i] != ids[j])
  }

  /** A well-formed event: sound operations of different kinds, every id usable and named once. */
  predicate ValidOps(ops: seq<Op>) {
    && ops != []
    && (forall i :: 0 <= i < |ops| ==> OpOk(ops[i]))
    && (forall i, j :: 0 <= i < j < |ops| ==> ops[i].kind != ops[j].kind)
    && Distinct(AllIds(ops))
  }

  method Operations(ops: seq<Op>) returns (ok: bool)
    ensures ok <==> ValidOps(ops)
  {
    hide Distinct, OpOk;
    if ops == [] {
      return false;
    }
    NoIdsYet();
    var names: set<Kind> := {};
    var ids: set<Id> := {};
    for i := 0 to |ops|
      invariant forall k :: 0 <= k < i ==> OpOk(ops[k])
      invariant forall k, l :: 0 <= k < l < i ==> ops[k].kind != ops[l].kind
      invariant names == set k | 0 <= k < i :: ops[k].kind
      invariant Distinct(AllIds(ops[..i]))
      invariant forall x :: x in ids <==> Some(x) in AllIds(ops[..i])
    {
      var op := ops[i];
      if op.kind in names || !OpOk(op) {
        return false;
      }
      assert ops[..i + 1][..i] == ops[..i];
      names := names + {op.kind};
      ghost var before := AllIds(ops[..i]);
      var added := AddIds(ids, IdList(op), before);
      if added.None? {
        NotDistinct(ops, i, before);
        return false;
      }
      ids := added.value;
    }
    assert ops[..|ops|] == ops;
    ok := true;
  }

  lemma NoIdsYet()
    ensures Distinct(AllIds([]))
  {
  }

  /** The inner loop: one more operation's ids, refused when one is unusable or already there. */
  method AddIds(ids: set<Id>, list: seq<Option<Id>>, ghost before: seq<Option<Id>>) returns (r: Option<set<Id>>)
    requires Distinct(before) && forall x :: x in ids <==> Some(x) in before
    ensures r.Some? <==> Distinct(before + list)
    ensures r.Some? ==> forall x :: x in r.value <==> Some(x) in before + list
  {
    var all := ids;
    for j := 0 to |list|
      invariant Distinct(before + list[..j])
      invariant forall x :: x in all <==> Some(x) in before + list[..j]
    {
      if list[j].None? || list[j].value in all {
        RepeatedId(before, list, j);
        return None;
      }
      all := all + {list[j].value};
      assert before + list[..j + 1] == before + list[..j] + [list[j]];
    }
    assert list[..|list|] == list;
    r := Some(all);
  }

  lemma RepeatedId(before: seq<Option<Id>>, list: seq<Option<Id>>, j: nat)
    requires j < |list| && (list[j].None? || list[j] in before + list[..j])
    ensures !Distinct(before + list)
  {
    var all := before + list;
    assert all[|before| + j] == list[j];
    if list[j].Some? {
      var k :| 0 <= k < |before| + j && (before + list[..j])[k] == list[j];
      assert all[k] == (before + list[..j])[k];
    }
  }

  /** A repeated or unusable id anywhere makes the whole event unusable. */
  lemma NotDistinct(ops: seq<Op>, i: nat, before: seq<Option<Id>>)
    requires i < |ops| && before == AllIds(ops[..i]) && !Distinct(before + IdList(ops[i]))
    ensures !Distinct(AllIds(ops))
  {
    assert ops[..i + 1][..i] == ops[..i];
    assert AllIds(ops[..i + 1]) == before + IdList(ops[i]);
    AllIdsPrefix(ops, i + 1);
    if Distinct(AllIds(ops)) {
      PrefixDistinct(AllIds(ops[..i + 1]), AllIds(ops));
    }
  }

  lemma PrefixDistinct(a: seq<Option<Id>>, b: seq<Option<Id>>)
    requires a <= b && Distinct(b)
    ensures Distinct(a)
  {
    assert forall i :: 0 <= i < |a| ==> a[i] == b[i];
  }

  lemma {:induction false} AllIdsPrefix(ops: seq<Op>, i: nat)
    requires i <= |ops|
    ensures AllIds(ops[..i]) <= AllIds(ops)
    decreases |ops|
  {
    if i == |ops| {
      assert ops[..i] == ops;
    } else {
      AllIdsPrefix(ops[..|ops| - 1], i);
      assert ops[..|ops| - 1][..i] == ops[..i];
    }
  }

  // ----- the controller -----

  /** A snapshot request from `runRequest` to its final callback. */
  datatype Stage = Queued | Requested | Skipped | Responded(value: Data) | Rejected | Handled | Finished
  datatype Fetch = Fetch(generation: nat, mutation: nat, stage: Stage, aborted: bool)

  /** The query as prepared: whether it has a usable snapshot, whether snapshots are its mode, and its view filter. */
  datatype Query = Query(snapshot: bool, snapshotMode: bool, hasView: bool, where: Option<set<Id>>)

  datatype Controller = Controller(
    query: Query,
    started: bool,
    retired: bool,
    live: bool,
    blocked: bool,
    generation: nat,
    mutation: nat,
    data: Data,
    baseline: bool,
    debounce: nat,
    jitter: nat,
    dirty: bool,
    deadline: nat,
    now: nat,
    timer: bool,
    inFlight: Option<nat>,
    fetches: seq<Fetch>)

  datatype Happening =
    | Start
    | Retire
    | Leave
    | Change(payload: Option<seq<Op>>, raw: Data, adapter: Adapter)
    | Ready(debounce: int, jitter: int)
    | Error(blocking: bool)
    | TimerFired
    | Launch(fetch: nat)
    | Respond(fetch: nat, value: Data)
    | Reject(fetch: nat)
    | Handle(fetch: nat)
    | Settle(fetch: nat)

  /** Something happens at a time, with a draw of the jitter should one be needed. */
  datatype Event = Event(now: nat, draw: nat, what: Happening)

  const UNDEFINED := NotArray(0)

  predicate Active(s: Controller) {
    s.started && !s.retired && s.live
  }

  function SetFetch(s: Controller, k: nat, stage: Stage): Controller
    requires k < |s.fetches|
  {
    s.(fetches := s.fetches[k := s.fetches[k].(stage := stage)])
  }

  function InvalidateRequests(s: Controller): Controller {
    s.(generation := s.generation + 1, timer := false, dirty := false, inFlight := None,
       fetches := if s.inFlight.Some? && s.inFlight.value < |s.fetches|
                  then s.fetches[s.inFlight.value := s.fetches[s.inFlight.value].(aborted := true)] else s.fetches)
  }

  function RetireNow(s: Controller): Controller {
    if s.retired then s else InvalidateRequests(s.(retired := true))
  }

  function RunRequest(s: Controller): Controller {
    if !Active(s) || s.blocked || s.inFlight.Some? || !s.query.snapshot then s
    else s.(timer := false, dirty := false, inFlight := Some(|s.fetches|),
            fetches := s.fetches + [Fetch(s.generation, s.mutation, Queued, false)])
  }

  function Arrange(s: Controller, dueImmediately: bool): Controller {
    if !Active(s) || s.blocked || !s.dirty || s.timer then s
    else if s.deadline <= s.now && (s.inFlight.Some? || dueImmediately) then
      if s.inFlight.None? then RunRequest(s) else s
    else s.(timer := true)
  }

  function Invalidate(s: Controller, draw: nat): Controller {
    if !Active(s) || s.blocked || !s.query.snapshot then s
    else
      var extra := if draw <= s.jitter then draw else 0;
      Arrange(if s.dirty then s else s.(dirty := true, deadline := s.now + s.debounce + extra), false)
  }

  /** The continuation of a request still speaks for the controller. */
  predicate Speaks(s: Controller, k: nat)
    requires k < |s.fetches|
  {
    Active(s) && s.inFlight == Some(k) && s.generation == s.fetches[k].generation
  }

  predicate Relevant(where: Option<set<Id>>, op: Op) {
    op.count != 0 && exists i :: 0 <= i < |IdList(op)| && IdList(op)[i].Some? && Belongs(where, IdList(op)[i].value)
  }

  predicate HasKind(where: Option<set<Id>>, ops: seq<Op>, kind: Kind) {
    exists i :: 0 <= i < |ops| && ops[i].kind == kind && Relevant(where, ops[i])
  }

  function IdsOfKind(ops: seq<Op>, kind: Kind): set<Id> {
    set i, j | 0 <= i < |ops| && ops[i].kind == kind && 0 <= j < |IdList(ops[i])| && IdList(ops[i])[j].Some? ::
      IdList(ops[i])[j].value
  }

  function Without(rows: seq<Row>, ids: set<Id>): seq<Row> {
    if rows == [] then []
    else
      var r := rows[|rows| - 1];
      Without(rows[..|rows| - 1], ids) + if r.key.Some? && r.key.value in ids then [] else [r]
  }

  function InView(rows: seq<Row>, where: Option<set<Id>>): seq<Row> {
    if rows == [] then []
    else
      var r := rows[|rows| - 1];
      InView(rows[..|rows| - 1], where) + if RowOk(where, r) then [r] else []
  }

  function DeleteRows(s: Controller, ops: seq<Op>, barrier: bool, draw: nat): Controller
    requires s.data.Rows?
  {
    var next := Without(s.data.rows, IdsOfKind(ops, Delete));
    var edited := if |next| == |s.data.rows| then s
                  else s.(mutation := if barrier then s.mutation else s.mutation + 1, data := Rows(next));
    if barrier then Invalidate(edited, draw) else edited
  }

  function InsertRows(s: Controller, ops: seq<Op>, adapter: Adapter, draw: nat): Controller
    requires s.data.Rows?
  {
    if !adapter.Captured? then Invalidate(s, draw)
    else if !ValidRows(Rows(adapter.rows), None)
        || KeysOf(adapter.rows) != IdsOfKind(ops, Insert) then Invalidate(s, draw)
    else
      var additions := InView(adapter.rows, s.query.where);
      if KeysOf(additions) * KeysOf(s.data.rows) != {} then Invalidate(s, draw)
      else
        var edited := s.(mutation := s.mutation + 1, data := Rows(s.data.rows + additions));
        if s.inFlight.Some? then Invalidate(edited, draw) else edited
  }

  function ApplyOps(s: Controller, ops: seq<Op>, adapter: Adapter, draw: nat): Controller {
    var where := s.query.where;
    var deletes, inserts, updates := HasKind(where, ops, Delete), HasKind(where, ops, Insert),
        HasKind(where, ops, Update);
    if !deletes && !inserts && !updates then s
    else
      var barrier := deletes && s.inFlight.Some?;
      var barred := if barrier then s.(mutation := s.mutation + 1) else s;
      if !s.baseline || !ValidRows(s.data, where) || updates || (deletes && inserts) then Invalidate(barred, draw)
      else if deletes then DeleteRows(barred, ops, barrier, draw)
      else InsertRows(barred, ops, adapter, draw)
  }

  function Changed(s: Controller, payload: Option<seq<Op>>, raw: Data, adapter: Adapter, draw: nat): Controller {
    if !Active(s) || s.blocked then s
    else if !s.query.snapshotMode then s.(data := raw)
    else if !s.query.hasView || payload.None? || !ValidOps(payload.value) then Invalidate(s, draw)
    else ApplyOps(s, payload.value, adapter, draw)
  }

  function AdviceValue(value: int, fallback: nat, maximum: nat): nat {
    if 0 <= value <= maximum then value else fallback
  }

  function HandledBy(s: Controller, k: nat, draw: nat): Controller
    requires k < |s.fetches|
  {
    var done := SetFetch(s, k, Handled);
    var stage := s.fetches[k].stage;
    if !Speaks(s, k) then done
    else if s.fetches[k].mutation != s.mutation then Invalidate(done, draw)
    else if stage.Rejected? then done
    else done.(data := if stage.Responded? then stage.value else UNDEFINED, baseline := true)
  }

  function Happen(s: Controller, what: Happening, draw: nat): Controller {
    match what
    case Start =>
      if s.started || s.retired then s
      else
        var begun := s.(started := true);
        if !Active(begun) then RetireNow(begun) else RunRequest(begun)
    case Retire => RetireNow(s)
    case Leave => s.(live := false)
    case Change(payload, raw, adapter) => Changed(s, payload, raw, adapter, draw)
    case Ready(debounce, jitter) =>
      if !Active(s) then s
      else
        var told := s.(debounce := AdviceValue(debounce, 100, 60000), jitter := AdviceValue(jitter, 50, 5000),
                       blocked := false);
        if s.blocked then RunRequest(told) else told
    case Error(blocking) =>
      if !Active(s) || !blocking then s else InvalidateRequests(s.(blocked := true))
    case TimerFired =>
      if !s.timer then s
      else
        var fired := s.(timer := false);
        if Active(s) && !s.blocked && s.dirty && s.inFlight.None? then RunRequest(fired) else fired
    case Launch(k) =>
      if k >= |s.fetches| || s.fetches[k].stage != Queued then s
      else SetFetch(s, k, if Speaks(s, k) && !s.blocked then Requested else Skipped)
    case Respond(k, value) =>
      if k >= |s.fetches| || s.fetches[k].stage != Requested then s else SetFetch(s, k, Responded(value))
    case Reject(k) =>
      if k >= |s.fetches| || s.fetches[k].stage != Requested then s else SetFetch(s, k, Rejected)
    case Handle(k) =>
      if k < |s.fetches| && (s.fetches[k].stage.Responded? || s.fetches[k].stage == Rejected
                             || s.fetches[k].stage == Skipped)
      then HandledBy(s, k, draw) else s
    case Settle(k) =>
      if k >= |s.fetches| || s.fetches[k].stage != Handled then s
      else
        var done := SetFetch(s, k, Finished);
        if !Speaks(s, k) then done else Arrange(done.(inFlight := None), true)
  }

  /** The clock never goes back. */
  function Clocked(s: Controller, now: nat): Controller {
    if s.now <= now then s.(now := now) else s
  }

  function Step(s: Controller, e: Event): Controller {
    Happen(Clocked(s, e.now), e.what, e.draw)
  }

  function Initial(query: Query, data: Data): Controller {
    Controller(query, false, false, true, false, 0, 0, data, false, 100, 50, false, 0, 0, false, None, [])
  }

  function After(query: Query, data: Data, es: seq<Event>, i: nat): Controller
    requires i <= |es|
  {
    if i == 0 then Initial(query, data) else Step(After(query, data, es, i - 1), es[i - 1])
  }

  // ----- what every step keeps -----

  predicate FetchOk(s: Controller, k: nat)
    requires k < |s.fetches|
  {
    var f := s.fetches[k];
    && f.mutation <= s.mutation
    && (!f.aborted && f.stage != Finished ==> s.inFlight == Some(k))
    && (s.inFlight == Some(k) ==> !f.aborted && f.generation == s.generation)
    && (s.inFlight == Some(k) && Active(s) ==> f.stage != Finished && f.stage != Skipped)
  }

  predicate Core(s: Controller) {
    && (s.inFlight.Some? ==> s.inFlight.value < |s.fetches|)
    && (forall k :: 0 <= k < |s.fetches| ==> FetchOk(s, k))
    && (s.blocked ==> s.inFlight.None? && !s.dirty && !s.timer)
    && (s.dirty ==> s.query.snapshot)
    && (!s.started ==> s.fetches == [] && !s.dirty && !s.timer && !s.blocked)
  }

  /** An active controller that has something to re-query has a timer or a request that will do it. */
  predicate Inv(s: Controller) {
    Core(s) && (Active(s) && s.dirty ==> s.timer || s.inFlight.Some?)
  }

  /** Changes to fields that the requests do not depend on. */
  lemma CoreFrame(s: Controller, t: Controller)
    requires Core(s) && t.fetches == s.fetches && t.inFlight == s.inFlight && t.generation == s.generation
    requires s.mutation <= t.mutation && (Active(t) ==> Active(s))
    requires t.started == s.started && (!s.started ==> !t.dirty && !t.timer && !t.blocked)
    requires t.blocked ==> t.inFlight.None? && !t.dirty && !t.timer
    requires t.dirty ==> t.query.snapshot
    ensures Core(t)
  {
    assert forall k :: 0 <= k < |s.fetches| ==> FetchOk(s, k) ==> FetchOk(t, k);
  }

  lemma RunRequestInv(s: Controller)
    requires Core(s)
    ensures Core(RunRequest(s))
    ensures Inv(s) || (Active(s) && !s.blocked && s.inFlight.None?) ==> Inv(RunRequest(s))
  {
    var t := RunRequest(s);
    if t != s {
      forall k | 0 <= k < |t.fetches|
        ensures FetchOk(t, k)
      {
        assert k < |s.fetches| ==> FetchOk(s, k);
      }
    }
  }

  lemma ArrangeInv(s: Controller, due: bool)
    requires Core(s)
    ensures Inv(Arrange(s, due))
  {
    hide Core, RunRequest;
    RunRequestInv(s);
    if Active(s) && !s.blocked && s.dirty && s.inFlight.None? {
      RequestStarted(s);
    }
    if !s.blocked {
      assert s.started ==> Core(s.(timer := true)) by { if s.started { TimerCore(s); } }
    } else {
      BlockedQuiet(s);
    }
  }

  lemma TimerCore(s: Controller)
    requires Core(s) && !s.blocked && s.started
    ensures Core(s.(timer := true))
  {
    CoreFrame(s, s.(timer := true));
  }

  lemma BlockedQuiet(s: Controller)
    requires Core(s) && s.blocked
    ensures !s.dirty
  {
  }

  lemma RequestStarted(s: Controller)
    requires Core(s) && Active(s) && !s.blocked && s.dirty && s.inFlight.None?
    ensures RunRequest(s).inFlight.Some? && !RunRequest(s).dirty && |RunRequest(s).fetches| == |s.fetches| + 1
  {
  }

  lemma InvalidateInv(s: Controller, draw: nat)
    requires Inv(s)
    ensures Inv(Invalidate(s, draw))
  {
    hide Arrange;
    if Active(s) && !s.blocked && s.query.snapshot {
      var extra := if draw <= s.jitter then draw else 0;
      var t := if s.dirty then s else s.(dirty := true, deadline := s.now + s.debounce + extra);
      CoreFrame(s, t);
      ArrangeInv(t, false);
    }
  }

  lemma InvalidateRequestsInv(s: Controller, t: Controller)
    requires Inv(s) && (t == s.(retired := true) || (s.started && t == s.(blocked := true)))
    ensures Inv(InvalidateRequests(t))
  {
    var u := InvalidateRequests(t);
    forall k | 0 <= k < |u.fetches|
      ensures FetchOk(u, k)
    {
      assert FetchOk(s, k);
    }
  }

  lemma SetFetchInv(s: Controller, k: nat, stage: Stage)
    requires Inv(s) && k < |s.fetches|
    requires stage == Finished || s.fetches[k].stage != Finished
    requires s.inFlight == Some(k) && Active(s) ==> stage != Finished && stage != Skipped
    ensures Inv(SetFetch(s, k, stage))
  {
    var t := SetFetch(s, k, stage);
    forall j | 0 <= j < |t.fetches|
      ensures FetchOk(t, j)
    {
      assert FetchOk(s, j);
    }
  }

  lemma SpeaksOr(s: Controller, k: nat)
    requires Inv(s) && k < |s.fetches| && s.inFlight == Some(k) && Active(s)
    ensures Speaks(s, k) && !s.blocked && s.fetches[k].stage != Skipped && s.fetches[k].stage != Finished
  {
    assert FetchOk(s, k);
  }

  /** Bookkeeping changes keep the invariant. */
  lemma InvFrame(s: Controller, t: Controller)
    requires Inv(s) && t.fetches == s.fetches && t.inFlight == s.inFlight && t.generation == s.generation
    requires s.mutation <= t.mutation && (Active(t) ==> Active(s)) && t.query == s.query
    requires t.started == s.started && (t.blocked ==> s.blocked)
    requires t.dirty == s.dirty && t.timer == s.timer
    ensures Inv(t)
  {
    CoreFrame(s, t);
  }

  lemma ApplyOpsInv(s: Controller, ops: seq<Op>, adapter: Adapter, draw: nat)
    requires Inv(s)
    ensures Inv(ApplyOps(s, ops, adapter, draw))
  {
    hide Invalidate, HasKind, Without, InView, IdsOfKind, KeysOf, Inv, DeleteRows, InsertRows;
    var barrier := HasKind(s.query.where, ops, Delete) && s.inFlight.Some?;
    var barred := if barrier then s.(mutation := s.mutation + 1) else s;
    InvFrame(s, barred);
    InvalidateInv(barred, draw);
    if barred.data.Rows? {
      DeleteRowsInv(barred, ops, barrier, draw);
      InsertRowsInv(barred, ops, adapter, draw);
    }
  }

  lemma DeleteRowsInv(s: Controller, ops: seq<Op>, barrier: bool, draw: nat)
    requires Inv(s) && s.data.Rows?
    ensures Inv(DeleteRows(s, ops, barrier, draw))
  {
    hide Invalidate, Without, IdsOfKind, Inv;
    var next := Without(s.data.rows, IdsOfKind(ops, Delete));
    var edited := if |next| == |s.data.rows| then s
                  else s.(mutation := if barrier then s.mutation else s.mutation + 1, data := Rows(next));
    InvFrame(s, edited);
    InvalidateInv(edited, draw);
  }

  lemma InsertRowsInv(s: Controller, ops: seq<Op>, adapter: Adapter, draw: nat)
    requires Inv(s) && s.data.Rows?
    ensures Inv(InsertRows(s, ops, adapter, draw))
  {
    hide Invalidate, InView, ValidRows, IdsOfKind, KeysOf, Inv;
    InvalidateInv(s, draw);
    if adapter.Captured? {
      var edited := s.(mutation := s.mutation + 1, data := Rows(s.data.rows + InView(adapter.rows, s.query.where)));
      InvFrame(s, edited);
      InvalidateInv(edited, draw);
    }
  }

  lemma ChangedInv(s: Controller, payload: Option<seq<Op>>, raw: Data, adapter: Adapter, draw: nat)
    requires Inv(s)
    ensures Inv(Changed(s, payload, raw, adapter, draw))
  {
    hide Invalidate, ApplyOps, ValidOps, Inv;
    InvFrame(s, s.(data := raw));
    InvalidateInv(s, draw);
    if payload.Some? {
      ApplyOpsInv(s, payload.value, adapter, draw);
    }
  }

  lemma HandledInv(s: Controller, k: nat, draw: nat)
    requires Inv(s) && k < |s.fetches| && s.fetches[k].stage != Finished
    ensures Inv(HandledBy(s, k, draw))
  {
    hide Invalidate, Inv;
    SetFetchInv(s, k, Handled);
    var done := SetFetch(s, k, Handled);
    InvalidateInv(done, draw);
    var stage := s.fetches[k].stage;
    InvFrame(done, done.(data := if stage.Responded? then stage.value else UNDEFINED, baseline := true));
  }

  lemma SettleInv(s: Controller, k: nat)
    requires Inv(s) && k < |s.fetches| && Speaks(s, k)
    ensures Inv(Arrange(SetFetch(s, k, Finished).(inFlight := None), true))
  {
    hide Arrange;
    var t := SetFetch(s, k, Finished).(inFlight := None);
    forall j | 0 <= j < |t.fetches|
      ensures FetchOk(t, j)
    {
      assert FetchOk(s, j);
    }
    ArrangeInv(t, true);
  }

  lemma LifeInv(s: Controller, what: Happening, draw: nat)
    requires Inv(s) && (what.Start? || what.Retire? || what.Ready? || what.Error? || what.TimerFired?)
    ensures Inv(Happen(s, what, draw))
  {
    hide RunRequest, Inv, InvalidateRequests;
    match what
    case Start =>
      if !s.started && !s.retired {
        StartInv(s);
      }
    case Retire => InvalidateRequestsInv(s, s.(retired := true));
    case Ready(debounce, jitter) =>
      var told := s.(debounce := AdviceValue(debounce, 100, 60000), jitter := AdviceValue(jitter, 50, 5000),
                     blocked := false);
      InvFrame(s, told);
      CoreOf(told);
      RunRequestInv(told);
    case Error(_) => if s.started { InvalidateRequestsInv(s, s.(blocked := true)); }
    case TimerFired =>
      if s.timer {
        TimerInv(s);
      }
  }

  lemma CoreOf(s: Controller)
    requires Inv(s)
    ensures Core(s)
  {
  }

  lemma StartInv(s: Controller)
    requires Inv(s) && !s.started && !s.retired
    ensures Inv(Happen(s, Start, 0))
  {
    hide RunRequest, InvalidateRequests;
    var begun := s.(started := true);
    assert Inv(begun);
    RunRequestInv(begun);
    InvalidateRequestsInv(begun, begun.(retired := true));
  }

  lemma TimerInv(s: Controller)
    requires Inv(s) && s.timer
    ensures Inv(Happen(s, TimerFired, 0))
  {
    hide RunRequest;
    var fired := s.(timer := false);
    CoreFrame(s, fired);
    RunRequestInv(fired);
  }

  lemma FetchStepInv(s: Controller, what: Happening, draw: nat)
    requires Inv(s) && (what.Launch? || what.Respond? || what.Reject?)
    ensures Inv(Happen(s, what, draw))
  {
    hide Inv, Speaks;
    if what.fetch < |s.fetches| {
      var k := what.fetch;
      if s.inFlight == Some(k) && Active(s) {
        SpeaksOr(s, k);
      }
      match what
      case Launch(_) =>
        if s.fetches[k].stage == Queued {
          SetFetchInv(s, k, if Speaks(s, k) && !s.blocked then Requested else Skipped);
        }
      case Respond(_, value) =>
        if s.fetches[k].stage == Requested {
          SetFetchInv(s, k, Responded(value));
        }
      case Reject(_) =>
        if s.fetches[k].stage == Requested {
          SetFetchInv(s, k, Rejected);
        }
    }
  }

  lemma FinallyInv(s: Controller, k: nat, draw: nat)
    requires Inv(s)
    ensures Inv(Happen(s, Settle(k), draw))
  {
    hide Inv, Arrange;
    if k < |s.fetches| && s.fetches[k].stage == Handled {
      if Speaks(s, k) {
        SettleInv(s, k);
      } else {
        if s.inFlight == Some(k) && Active(s) {
          SpeaksOr(s, k);
        }
        SetFetchInv(s, k, Finished);
      }
    }
  }

  lemma HappenInv(s: Controller, what: Happening, draw: nat)
    requires Inv(s)
    ensures Inv(Happen(s, what, draw))
  {
    hide Inv, Changed, HandledBy, Arrange, RunRequest, InvalidateRequests, SetFetch, AdviceValue;
    match what
    case Leave => InvFrame(s, s.(live := false));
    case Change(payload, raw, adapter) => ChangedInv(s, payload, raw, adapter, draw);
    case Handle(k) =>
      if k < |s.fetches| && s.fetches[k].stage != Finished {
        HandledInv(s, k, draw);
      }
    case Settle(k) => FinallyInv(s, k, draw);
    case Launch(_) => FetchStepInv(s, what, draw);
    case Respond(_, _) => FetchStepInv(s, what, draw);
    case Reject(_) => FetchStepInv(s, what, draw);
    case _ => LifeInv(s, what, draw);
  }

  lemma StepInv(s: Controller, e: Event)
    requires Inv(s)
    ensures Inv(Step(s, e))
  {
    hide Happen, Inv;
    InvFrame(s, Clocked(s, e.now));
    HappenInv(Clocked(s, e.now), e.what, e.draw);
  }

  lemma {:induction false} RunInv(query: Query, data: Data, es: seq<Event>, i: nat)
    requires i <= |es|
    ensures Inv(After(query, data, es, i))
  {
    hide Step;
    if i > 0 {
      RunInv(query, data, es, i - 1);
      StepInv(After(query, data, es, i - 1), es[i - 1]);
    }
  }

  // ----- whole runs -----

  /** Requests are only added, never revived, and a pending invalidation goes only by a new request or a reset. */
  predicate Moves(s: Controller, t: Controller) {
    && |s.fetches| <= |t.fetches| && s.mutation <= t.mutation && s.generation <= t.generation
    && (forall k :: 0 <= k < |s.fetches| ==>
          && t.fetches[k].mutation == s.fetches[k].mutation
          && (t.inFlight == Some(k) ==> s.inFlight == Some(k)))
    && (t.generation == s.generation && s.dirty ==> t.dirty || |t.fetches| > |s.fetches|)
  }

  lemma ArrangeMoves(s: Controller, due: bool)
    ensures Moves(s, Arrange(s, due)) && Arrange(s, due).data == s.data && Arrange(s, due).mutation == s.mutation
  {
  }

  lemma InvalidateMoves(s: Controller, draw: nat)
    ensures Moves(s, Invalidate(s, draw)) && Invalidate(s, draw).data == s.data
              && Invalidate(s, draw).mutation == s.mutation
  {
    hide Arrange;
    var extra := if draw <= s.jitter then draw else 0;
    var t := if s.dirty then s else s.(dirty := true, deadline := s.now + s.debounce + extra);
    ArrangeMoves(t, false);
  }

  /** A local edit replaces the data only together with a higher mutation; a delete in view is a barrier. */
  lemma ApplyOpsMoves(s: Controller, ops: seq<Op>, adapter: Adapter, draw: nat)
    ensures var t := ApplyOps(s, ops, adapter, draw);
            && Moves(s, t)
            && (t.data != s.data ==> t.mutation > s.mutation)
            && (HasKind(s.query.where, ops, Delete) && s.inFlight.Some? ==> t.mutation > s.mutation)
            && (s.inFlight.None? ==> forall k :: 0 <= k < |s.fetches| ==> t.inFlight != Some(k))
  {
    hide Invalidate, HasKind, IdsOfKind, InView, KeysOf, ValidRows;
    var where := s.query.where;
    var barrier := HasKind(where, ops, Delete) && s.inFlight.Some?;
    var barred := if barrier then s.(mutation := s.mutation + 1) else s;
    InvalidateMoves(barred, draw);
    if barred.data.Rows? {
      DeleteRowsMoves(barred, ops, barrier, draw);
      InsertRowsMoves(barred, ops, adapter, draw);
    }
    ApplyCases(s, ops, adapter, draw);
  }

  lemma ApplyCases(s: Controller, ops: seq<Op>, adapter: Adapter, draw: nat)
    ensures var where := s.query.where;
            var barrier := HasKind(where, ops, Delete) && s.inFlight.Some?;
            var barred := if barrier then s.(mutation := s.mutation + 1) else s;
            var t := ApplyOps(s, ops, adapter, draw);
            || (t == s && !HasKind(where, ops, Delete))
            || t == Invalidate(barred, draw)
            || (s.data.Rows? && HasKind(where, ops, Delete) && t == DeleteRows(barred, ops, barrier, draw))
            || (s.data.Rows? && !barrier && t == InsertRows(s, ops, adapter, draw) && !HasKind(where, ops, Delete))
  {
    hide Invalidate, HasKind, DeleteRows, InsertRows;
  }

  lemma DeleteRowsMoves(s: Controller, ops: seq<Op>, barrier: bool, draw: nat)
    requires s.data.Rows?
    ensures var t := DeleteRows(s, ops, barrier, draw);
            && Moves(s, t) && (!barrier && t.data != s.data ==> t.mutation > s.mutation)
            && (!barrier ==> t.inFlight == s.inFlight)
  {
    hide Invalidate, Without, IdsOfKind;
    var next := Without(s.data.rows, IdsOfKind(ops, Delete));
    var edited := if |next| == |s.data.rows| then s
                  else s.(mutation := if barrier then s.mutation else s.mutation + 1, data := Rows(next));
    InvalidateMoves(edited, draw);
  }

  lemma InsertRowsMoves(s: Controller, ops: seq<Op>, adapter: Adapter, draw: nat)
    requires s.data.Rows?
    ensures var t := InsertRows(s, ops, adapter, draw);
            && Moves(s, t) && (t.data != s.data ==> t.mutation > s.mutation)
  {
    hide Invalidate, InView, IdsOfKind, ValidRows, KeysOf;
    InvalidateMoves(s, draw);
    if adapter.Captured? {
      var edited := s.(mutation := s.mutation + 1, data := Rows(s.data.rows + InView(adapter.rows, s.query.where)));
      InvalidateMoves(edited, draw);
    }
  }

  lemma ChangedMoves(s: Controller, payload: Option<seq<Op>>, raw: Data, adapter: Adapter, draw: nat)
    ensures Moves(s, Changed(s, payload, raw, adapter, draw))
  {
    hide Invalidate, ApplyOps, ValidOps;
    InvalidateMoves(s, draw);
    if payload.Some? {
      ApplyOpsMoves(s, payload.value, adapter, draw);
    }
  }

  lemma HandledMoves(s: Controller, k: nat, draw: nat)
    requires k < |s.fetches|
    ensures Moves(s, HandledBy(s, k, draw))
  {
    hide Invalidate;
    InvalidateMoves(SetFetch(s, k, Handled), draw);
  }

  lemma RunRequestMoves(s: Controller)
    ensures Moves(s, RunRequest(s)) && RunRequest(s).data == s.data
  {
  }

  lemma ResetMoves(s: Controller)
    ensures Moves(s, InvalidateRequests(s)) && InvalidateRequests(s).data == s.data
  {
  }

  lemma SetFetchMoves(s: Controller, k: nat, stage: Stage)
    requires k < |s.fetches|
    ensures Moves(s, SetFetch(s, k, stage)) && SetFetch(s, k, stage).data == s.data
  {
  }

  /** Nothing that the requests depend on. */
  predicate Aside(s: Controller, t: Controller) {
    && t.fetches == s.fetches && t.inFlight == s.inFlight && t.mutation == s.mutation && t.generation == s.generation
    && t.dirty == s.dirty
  }

  lemma AsideMoves(s: Controller, t: Controller, u: Controller)
    requires Aside(s, t) && Moves(t, u)
    ensures Moves(s, u)
  {
  }

  lemma MovesSelf(s: Controller, t: Controller)
    requires Aside(s, t)
    ensures Moves(s, t)
  {
  }

  lemma MovesTransitive(s: Controller, t: Controller, u: Controller)
    requires Moves(s, t) && Moves(t, u)
    ensures Moves(s, u)
  {
  }

  /** The steps in a controller's life that are not about one request. */
  lemma LifeMoves(s: Controller, what: Happening, draw: nat)
    requires what.Start? || what.Retire? || what.Leave? || what.Ready? || what.Error? || what.TimerFired?
    ensures Moves(s, Happen(s, what, draw)) && Happen(s, what, draw).data == s.data
  {
    hide RunRequest, InvalidateRequests, Moves, AdviceValue;
    MovesSelf(s, s);
    match what
    case Start =>
      var begun := s.(started := true);
      RunRequestMoves(begun);
      AsideMoves(s, begun, RunRequest(begun));
      ResetMoves(begun.(retired := true));
      AsideMoves(s, begun.(retired := true), InvalidateRequests(begun.(retired := true)));
    case Retire =>
      ResetMoves(s.(retired := true));
      AsideMoves(s, s.(retired := true), InvalidateRequests(s.(retired := true)));
    case Leave => MovesSelf(s, s.(live := false));
    case Ready(debounce, jitter) =>
      var told := s.(debounce := AdviceValue(debounce, 100, 60000), jitter := AdviceValue(jitter, 50, 5000),
                     blocked := false);
      RunRequestMoves(told);
      AsideMoves(s, told, RunRequest(told));
      MovesSelf(s, told);
    case Error(_) =>
      ResetMoves(s.(blocked := true));
      AsideMoves(s, s.(blocked := true), InvalidateRequests(s.(blocked := true)));
    case TimerFired =>
      var fired := s.(timer := false);
      RunRequestMoves(fired);
      AsideMoves(s, fired, RunRequest(fired));
      MovesSelf(s, fired);
  }

  lemma SettleMoves(s: Controller, k: nat, draw: nat)
    ensures Moves(s, Happen(s, Settle(k), draw)) && Happen(s, Settle(k), draw).data == s.data
  {
    hide Arrange;
    if k < |s.fetches| {
      ArrangeMoves(SetFetch(s, k, Finished).(inFlight := None), true);
    }
  }

  lemma FetchMoves(s: Controller, what: Happening, draw: nat)
    requires what.Launch? || what.Respond? || what.Reject?
    ensures Moves(s, Happen(s, what, draw)) && Happen(s, what, draw).data == s.data
  {
    hide SetFetch, Moves;
    MovesSelf(s, s);
    if what.fetch < |s.fetches| {
      var k := what.fetch;
      match what
      case Launch(_) =>
        SetFetchMoves(s, k, Requested);
        SetFetchMoves(s, k, Skipped);
      case Respond(_, value) => SetFetchMoves(s, k, Responded(value));
      case Reject(_) => SetFetchMoves(s, k, Rejected);
    }
  }

  lemma HappenMoves(s: Controller, what: Happening, draw: nat)
    ensures Moves(s, Happen(s, what, draw))
    ensures !what.Change? && !what.Handle? ==> Happen(s, what, draw).data == s.data
  {
    hide Changed, HandledBy, Arrange, AdviceValue, Moves, RunRequest, InvalidateRequests, SetFetch;
    match what
    case Change(payload, raw, adapter) => ChangedMoves(s, payload, raw, adapter, draw);
    case Handle(k) =>
      MovesSelf(s, s);
      if k < |s.fetches| {
        HandledMoves(s, k, draw);
      }
    case Settle(k) => SettleMoves(s, k, draw);
    case Launch(_) => FetchMoves(s, what, draw);
    case Respond(_, _) => FetchMoves(s, what, draw);
    case Reject(_) => FetchMoves(s, what, draw);
    case _ => LifeMoves(s, what, draw);
  }

  lemma {:induction false} RunMoves(query: Query, data: Data, es: seq<Event>, i: nat, j: nat)
    requires i <= j <= |es|
    ensures Moves(After(query, data, es, i), After(query, data, es, j))
    decreases j
  {
    hide Happen, Moves;
    MovesSelf(After(query, data, es, j), After(query, data, es, j));
    if i < j {
      RunMoves(query, data, es, i, j - 1);
      var s := After(query, data, es, j - 1);
      var c := Clocked(s, es[j - 1].now);
      HappenMoves(c, es[j - 1].what, es[j - 1].draw);
      AsideMoves(s, c, After(query, data, es, j));
      MovesTransitive(After(query, data, es, i), s, After(query, data, es, j));
    }
  }

  /** Request `k` has been overtaken: it is no longer in flight, or an edit happened after it started. */
  predicate Overtaken(s: Controller, k: nat) {
    k < |s.fetches| && (s.inFlight != Some(k) || s.fetches[k].mutation < s.mutation)
  }

  /** Handling request `k` replaces the cached data by what it brought. */
  predicate Installs(s: Controller, e: Event, k: nat) {
    && e.what == Handle(k) && k < |s.fetches| && Speaks(s, k) && s.fetches[k].mutation == s.mutation
    && (s.fetches[k].stage.Responded? || s.fetches[k].stage == Skipped)
  }

  /** A well-formed event that deletes something in view. */
  predicate DeletesInView(s: Controller, e: Event) {
    && Active(s) && !s.blocked && s.query.snapshotMode && s.query.hasView
    && e.what.Change? && e.what.payload.Some? && ValidOps(e.what.payload.value)
    && HasKind(s.query.where, e.what.payload.value, Delete)
  }

  /** An event applied to the cached rows. */
  predicate EditsLocally(s: Controller, e: Event) {
    e.what.Change? && s.query.snapshotMode && Step(s, e).data != s.data
  }

  lemma EditOvertakes(s: Controller, e: Event, k: nat)
    requires Inv(s) && k < |s.fetches| && (DeletesInView(s, e) || EditsLocally(s, e))
    ensures Overtaken(Step(s, e), k)
  {
    hide ApplyOps, Invalidate, ValidOps, HasKind;
    var c := Clocked(s, e.now);
    assert FetchOk(s, k);
    var payload, raw, adapter := e.what.payload, e.what.raw, e.what.adapter;
    InvalidateMoves(c, e.draw);
    if payload.Some? {
      ApplyOpsMoves(c, payload.value, adapter, e.draw);
    }
  }

  /** In every run: once an in-view delete or a local edit has happened, no request that had started by then is ever
      installed, so an older snapshot cannot bring a deleted row back or undo an edit. */
  lemma NoStaleInstall(query: Query, data: Data, es: seq<Event>, i: nat, j: nat, k: nat)
    requires i < j < |es| && k < |After(query, data, es, i).fetches|
    requires DeletesInView(After(query, data, es, i), es[i]) || EditsLocally(After(query, data, es, i), es[i])
    ensures !Installs(After(query, data, es, j), es[j], k)
  {
    hide Step, DeletesInView, EditsLocally, Inv, Overtaken, Moves, Installs, After;
    AfterStep(query, data, es, i);
    RunInv(query, data, es, i);
    EditOvertakes(After(query, data, es, i), es[i], k);
    RunMoves(query, data, es, i + 1, j);
    OvertakenStays(After(query, data, es, i + 1), After(query, data, es, j), es[j], k);
  }

  lemma AfterStep(query: Query, data: Data, es: seq<Event>, i: nat)
    requires i < |es|
    ensures After(query, data, es, i + 1) == Step(After(query, data, es, i), es[i])
  {
  }

  lemma OvertakenStays(s: Controller, t: Controller, e: Event, k: nat)
    requires Overtaken(s, k) && Moves(s, t)
    ensures Overtaken(t, k) && !Installs(t, e, k)
  {
  }

  /** In every run the cached data changes only by a change event or by installing exactly what a request brought back;
      a request that was never sent brings nothing. */
  lemma InstallIsResponse(query: Query, data: Data, es: seq<Event>, i: nat)
    requires i < |es| && After(query, data, es, i + 1).data != After(query, data, es, i).data && !es[i].what.Change?
    ensures var s := After(query, data, es, i);
            && es[i].what.Handle? && Installs(s, es[i], es[i].what.fetch)
            && s.fetches[es[i].what.fetch].stage == Responded(After(query, data, es, i + 1).data)
  {
    RunInv(query, data, es, i);
    HappenData(After(query, data, es, i), es[i]);
  }

  lemma HappenData(s: Controller, e: Event)
    requires Inv(s) && Step(s, e).data != s.data && !e.what.Change?
    ensures e.what.Handle? && Installs(s, e, e.what.fetch)
    ensures s.fetches[e.what.fetch].stage == Responded(Step(s, e).data)
  {
    hide Happen, Invalidate, Core, Moves;
    var c := Clocked(s, e.now);
    HappenMoves(c, e.what, e.draw);
    HandleData(s, c, e);
  }

  lemma HandleData(s: Controller, c: Controller, e: Event)
    requires Inv(s) && e.what.Handle? && c == Clocked(s, e.now) && Happen(c, e.what, e.draw).data != s.data
    ensures Installs(s, e, e.what.fetch)
    ensures s.fetches[e.what.fetch].stage == Responded(Happen(c, e.what, e.draw).data)
  {
    hide HandledBy, Core, Happen, FetchOk;
    HandleChanges(c, e.what.fetch, e.draw);
    SpeaksOr(s, e.what.fetch);
  }

  lemma HandleChanges(s: Controller, k: nat, draw: nat)
    requires Happen(s, Handle(k), draw).data != s.data
    ensures k < |s.fetches| && Speaks(s, k) && s.fetches[k].mutation == s.mutation
    ensures s.fetches[k].stage == Responded(Happen(s, Handle(k), draw).data) || s.fetches[k].stage == Skipped
  {
    hide HandledBy, Happen, Speaks;
    HandleHappens(s, k, draw);
    HandledDataIs(s, k, draw);
  }

  lemma HandleHappens(s: Controller, k: nat, draw: nat)
    ensures Happen(s, Handle(k), draw) != s ==>
      && k < |s.fetches| && (s.fetches[k].stage.Responded? || s.fetches[k].stage == Rejected
                             || s.fetches[k].stage == Skipped)
      && Happen(s, Handle(k), draw) == HandledBy(s, k, draw)
  {
    hide HandledBy;
  }

  lemma HandledDataIs(s: Controller, k: nat, draw: nat)
    requires k < |s.fetches|
    ensures HandledBy(s, k, draw).data
         == if !Speaks(s, k) || s.fetches[k].mutation != s.mutation || s.fetches[k].stage.Rejected? then s.data
            else if s.fetches[k].stage.Responded? then s.fetches[k].stage.value else UNDEFINED
  {
    hide Invalidate, Moves;
    InvalidateMoves(SetFetch(s, k, Handled), draw);
  }

  predicate Pending(f: Fetch) {
    !f.aborted && f.stage != Finished
  }

  /** In every run at most one request is under way, and an active controller with something to re-query is not blocked
      and has a timer or a live request that will get to it. */
  lemma OneRequestAndNoneForgotten(query: Query, data: Data, es: seq<Event>, i: nat)
    requires i <= |es|
    ensures var s := After(query, data, es, i);
            && (forall a, b :: 0 <= a < b < |s.fetches| ==> !(Pending(s.fetches[a]) && Pending(s.fetches[b])))
            && (Active(s) && s.dirty ==>
                  !s.blocked && (s.timer || (s.inFlight.Some? && s.inFlight.value < |s.fetches|
                                             && Pending(s.fetches[s.inFlight.value]) && Speaks(s, s.inFlight.value))))
  {
    hide Step, Inv, Speaks;
    RunInv(query, data, es, i);
    var s := After(query, data, es, i);
    NoneForgotten(s);
    forall a, b | 0 <= a < b < |s.fetches|
      ensures !(Pending(s.fetches[a]) && Pending(s.fetches[b]))
    {
      OnePending(s, a, b);
    }
  }

  lemma OnePending(s: Controller, a: nat, b: nat)
    requires Inv(s) && a < b < |s.fetches|
    ensures !(Pending(s.fetches[a]) && Pending(s.fetches[b]))
  {
    assert FetchOk(s, a) && FetchOk(s, b);
  }

  lemma NoneForgotten(s: Controller)
    requires Inv(s)
    ensures Active(s) && s.dirty ==>
              !s.blocked && (s.timer || (s.inFlight.Some? && s.inFlight.value < |s.fetches|
                                         && Pending(s.fetches[s.inFlight.value]) && Speaks(s, s.inFlight.value)))
  {
    if s.inFlight.Some? {
      assert FetchOk(s, s.inFlight.value);
    }
  }

  /** In every run an invalidation is answered by a new request or still pending, unless the controller was reset. */
  lemma NoLostInvalidation(query: Query, data: Data, es: seq<Event>, i: nat, j: nat)
    requires i <= j <= |es| && After(query, data, es, i).dirty
    requires After(query, data, es, j).generation == After(query, data, es, i).generation
    ensures After(query, data, es, j).dirty || |After(query, data, es, j).fetches| > |After(query, data, es, i).fetches|
  {
    RunMoves(query, data, es, i, j);
  }

  // ----- what will happen, and what an edit does to the rows -----

  /** The rest of a request's life, whatever it is answered. */
  function Remaining(stage: Stage, k: nat, answer: Happening): seq<Happening> {
    match stage
    case Queued => [Launch(k), answer, Handle(k), Settle(k)]
    case Requested => [answer, Handle(k), Settle(k)]
    case Handled => [Settle(k)]
    case Finished => []
    case _ => [Handle(k), Settle(k)]
  }

  function Play(s: Controller, whats: seq<Happening>, draw: nat): Controller
    decreases |whats|
  {
    if whats == [] then s else Play(Happen(s, whats[0], draw), whats[1..], draw)
  }

  /** A controller that has something to re-query does so as soon as its timer goes off or its request ends: left alone,
      the request under way finishes in at most four callbacks, and then either a new one starts at once or the timer is
      set and its firing starts it. */
  lemma RequeryFollows(s: Controller, answer: Happening, draw: nat)
    requires Inv(s) && Active(s) && s.dirty
    requires s.inFlight.Some? ==>
             answer == Reject(s.inFlight.value) || (answer.Respond? && answer.fetch == s.inFlight.value)
    ensures var t := if s.inFlight.Some?
              then Play(s, Remaining(s.fetches[s.inFlight.value].stage, s.inFlight.value, answer), draw)
                     else s;
            || |t.fetches| > |s.fetches|
            || (t.inFlight.None? && t.timer && |Happen(t, TimerFired, draw).fetches| == |s.fetches| + 1)
  {
    if s.inFlight.Some? {
      EndOfRequest(s, answer, draw);
    }
  }

  /** From any stage of the request under way to its end. */
  lemma EndOfRequest(s: Controller, answer: Happening, draw: nat)
    requires Inv(s) && Active(s) && s.dirty && s.inFlight.Some?
    requires answer == Reject(s.inFlight.value) || (answer.Respond? && answer.fetch == s.inFlight.value)
    ensures var t := Play(s, Remaining(s.fetches[s.inFlight.value].stage, s.inFlight.value, answer), draw);
            || |t.fetches| > |s.fetches|
            || (t.inFlight.None? && t.timer && |Happen(t, TimerFired, draw).fetches| == |s.fetches| + 1)
    decreases |Remaining(s.fetches[s.inFlight.value].stage, s.inFlight.value, answer)|
  {
    var k := s.inFlight.value;
    var stage := s.fetches[k].stage;
    SpeaksOr(s, k);
    if stage == Handled {
      LastCallback(s, k, draw);
      OneMore(s, Settle(k), [], draw);
    } else {
      var rest := Remaining(stage, k, answer);
      NextCallback(s, answer, draw);
      OneMore(s, rest[0], rest[1..], draw);
      EndOfRequest(Happen(s, rest[0], draw), answer, draw);
    }
  }

  lemma OneMore(s: Controller, what: Happening, rest: seq<Happening>, draw: nat)
    ensures Play(s, [what] + rest, draw) == Play(Happen(s, what, draw), rest, draw)
  {
    hide Happen;
    assert ([what] + rest)[1..] == rest;
  }

  /** Each earlier callback leaves the request in flight, one stage further, and the invalidation pending. */
  lemma NextCallback(s: Controller, answer: Happening, draw: nat)
    requires Inv(s) && Active(s) && s.dirty && s.inFlight.Some?
    requires answer == Reject(s.inFlight.value) || (answer.Respond? && answer.fetch == s.inFlight.value)
    requires s.fetches[s.inFlight.value].stage != Handled
    ensures var k, stage := s.inFlight.value, s.fetches[s.inFlight.value].stage;
            var rest := Remaining(stage, k, answer);
            && |rest| > 1
            && var t := Happen(s, rest[0], draw);
               && Inv(t) && Active(t) && t.dirty && t.inFlight == s.inFlight && |t.fetches| == |s.fetches|
               && Remaining(t.fetches[k].stage, k, answer) == rest[1..]
  {
    hide Inv, Invalidate, AdviceValue;
    var k := s.inFlight.value;
    InFlightRange(s);
    SpeaksOr(s, k);
    var rest := Remaining(s.fetches[k].stage, k, answer);
    HappenInv(s, rest[0], draw);
    StillInvalid(SetFetch(s, k, Handled), draw);
  }

  lemma InFlightRange(s: Controller)
    requires Inv(s) && s.inFlight.Some?
    ensures s.inFlight.value < |s.fetches|
  {
  }

  lemma StillInvalid(s: Controller, draw: nat)
    requires s.dirty && s.inFlight.Some?
    ensures Invalidate(s, draw) == s || Invalidate(s, draw) == s.(timer := true)
  {
  }

  lemma LastCallback(s: Controller, k: nat, draw: nat)
    requires Inv(s) && Active(s) && s.dirty && s.inFlight == Some(k) && s.fetches[k].stage == Handled
    ensures var t := Happen(s, Settle(k), draw);
            || |t.fetches| > |s.fetches|
            || (t.inFlight.None? && t.timer && |Happen(t, TimerFired, draw).fetches| == |s.fetches| + 1)
  {
    SpeaksOr(s, k);
  }

  lemma {:induction false} WithoutRows(rows: seq<Row>, ids: set<Id>)
    ensures forall r :: r in Without(rows, ids) <==> r in rows && !(r.key.Some? && r.key.value in ids)
    ensures (forall i, j :: 0 <= i < j < |rows| ==> rows[i].key != rows[j].key) ==>
              forall i, j :: 0 <= i < j < |Without(rows, ids)| ==>
                  Without(rows, ids)[i].key != Without(rows, ids)[j].key
  {
    if rows != [] {
      var n := |rows| - 1;
      var rest := Without(rows[..n], ids);
      WithoutRows(rows[..n], ids);
      assert rows == rows[..n] + [rows[n]];
      forall i | 0 <= i < |rest|
        ensures rest[i] in rows[..n]
      {
        assert rest[i] in rest;
      }
    }
  }

  lemma {:induction false} InViewRows(rows: seq<Row>, where: Option<set<Id>>)
    ensures forall r :: r in InView(rows, where) <==> r in rows && RowOk(where, r)
    ensures (forall i, j :: 0 <= i < j < |rows| ==> rows[i].key != rows[j].key) ==>
              forall i, j :: 0 <= i < j < |InView(rows, where)| ==>
                  InView(rows, where)[i].key != InView(rows, where)[j].key
  {
    if rows != [] {
      var n := |rows| - 1;
      var rest := InView(rows[..n], where);
      InViewRows(rows[..n], where);
      assert rows == rows[..n] + [rows[n]];
      forall i | 0 <= i < |rest|
        ensures rest[i] in rows[..n]
      {
        assert rest[i] in rest;
      }
    }
  }

  lemma DeletedRows(rows: seq<Row>, ids: set<Id>, where: Option<set<Id>>)
    requires ValidRows(Rows(rows), where)
    ensures ValidRows(Rows(Without(rows, ids)), where)
  {
    WithoutRows(rows, ids);
    var next := Without(rows, ids);
    forall i | 0 <= i < |next|
      ensures RowOk(where, next[i])
    {
      assert next[i] in next;
    }
  }

  lemma InsertedRows(rows: seq<Row>, captured: seq<Row>, where: Option<set<Id>>)
    requires ValidRows(Rows(rows), where) && ValidRows(Rows(captured), None)
    requires KeysOf(InView(captured, where)) * KeysOf(rows) == {}
    ensures ValidRows(Rows(rows + InView(captured, where)), where)
  {
    InViewRows(captured, where);
    var additions := InView(captured, where);
    var next := rows + additions;
    forall i | 0 <= i < |next|
      ensures RowOk(where, next[i])
    {
      assert i >= |rows| ==> next[i] in additions;
    }
    forall i, j | 0 <= i < j < |next|
      ensures next[i].key != next[j].key
    {
      if i < |rows| <= j {
        assert RowOk(where, rows[i]) && next[j] in additions;
        assert next[j].key.value in KeysOf(additions) && rows[i].key.value in KeysOf(rows);
        assert next[i].key.value !in KeysOf(additions) * KeysOf(rows);
      }
    }
  }

  /** A local edit keeps a usable baseline usable. */
  lemma EditKeepsRows(s: Controller, payload: Option<seq<Op>>, raw: Data, adapter: Adapter, draw: nat)
    requires ValidRows(s.data, s.query.where) && s.query.snapshotMode
    ensures ValidRows(Changed(s, payload, raw, adapter, draw).data, s.query.where)
  {
    hide Invalidate, HasKind, ValidOps, IdsOfKind, KeysOf;
    InvalidateMoves(s, draw);
    if payload.Some? && s.data.Rows? {
      var ops := payload.value;
      var barrier := HasKind(s.query.where, ops, Delete) && s.inFlight.Some?;
      var barred := if barrier then s.(mutation := s.mutation + 1) else s;
      InvalidateMoves(barred, draw);
      ApplyCases(s, ops, adapter, draw);
      DeleteData(barred, ops, barrier, draw);
      InsertData(s, ops, adapter, draw);
    }
  }

  lemma DeleteData(s: Controller, ops: seq<Op>, barrier: bool, draw: nat)
    requires ValidRows(s.data, s.query.where)
    ensures var t := DeleteRows(s, ops, barrier, draw);
            && ValidRows(t.data, s.query.where)
            && (forall r :: r in t.data.rows <==>
                  r in s.data.rows && !(r.key.Some? && r.key.value in IdsOfKind(ops, Delete)))
  {
    hide Invalidate, IdsOfKind;
    var ids := IdsOfKind(ops, Delete);
    var next := Without(s.data.rows, ids);
    WithoutRows(s.data.rows, ids);
    DeletedRows(s.data.rows, ids, s.query.where);
    var edited := if |next| == |s.data.rows| then s
                  else s.(mutation := if barrier then s.mutation else s.mutation + 1, data := Rows(next));
    InvalidateMoves(edited, draw);
    WithoutAll(s.data.rows, ids);
  }

  /** Nothing filtered out means nothing to filter. */
  lemma {:induction false} WithoutAll(rows: seq<Row>, ids: set<Id>)
    ensures |Without(rows, ids)| <= |rows|
    ensures |Without(rows, ids)| == |rows| ==> Without(rows, ids) == rows
  {
    if rows != [] {
      WithoutAll(rows[..|rows| - 1], ids);
    }
  }

  lemma InsertData(s: Controller, ops: seq<Op>, adapter: Adapter, draw: nat)
    requires ValidRows(s.data, s.query.where)
    ensures ValidRows(InsertRows(s, ops, adapter, draw).data, s.query.where)
  {
    hide Invalidate, IdsOfKind, KeysOf, InView;
    InvalidateMoves(s, draw);
    if s.data.Rows? && adapter.Captured? {
      var additions := InView(adapter.rows, s.query.where);
      InvalidateMoves(s.(mutation := s.mutation + 1, data := Rows(s.data.rows + additions)), draw);
      if ValidRows(Rows(adapter.rows), None) && KeysOf(additions) * KeysOf(s.data.rows) == {} {
        InsertedRows(s.data.rows, adapter.rows, s.query.where);
      }
    }
  }

  /** A well-formed event that only deletes removes exactly the rows it names from a usable baseline. */
  lemma DeleteIsExact(s: Controller, ops: seq<Op>, raw: Data, adapter: Adapter, draw: nat, r: Row)
    requires Active(s) && !s.blocked && s.query.snapshotMode && s.query.hasView && ValidOps(ops)
    requires s.baseline && ValidRows(s.data, s.query.where)
    requires HasKind(s.query.where, ops, Delete)
    requires !HasKind(s.query.where, ops, Insert) && !HasKind(s.query.where, ops, Update)
    ensures var t := Changed(s, Some(ops), raw, adapter, draw);
            && t.data.Rows?
            && (r in t.data.rows <==> r in s.data.rows && !(r.key.Some? && r.key.value in IdsOfKind(ops, Delete)))
  {
    hide Invalidate, HasKind, ValidOps, IdsOfKind, DeleteRows;
    var barrier := s.inFlight.Some?;
    DeleteData(if barrier then s.(mutation := s.mutation + 1) else s, ops, barrier, draw);
  }

  lemma HandleIs(s: Controller, k: nat, draw: nat)
    requires k < |s.fetches|
    requires s.fetches[k].stage.Responded? || s.fetches[k].stage == Rejected || s.fetches[k].stage == Skipped
    ensures Happen(s, Handle(k), draw) == HandledBy(s, k, draw)
  {
    hide HandledBy;
  }

  // ----- the controller as an object -----

  class Cache {
    const query: Query
    var started: bool
    var retired: bool
    var live: bool
    var blocked: bool
    var generation: nat
    var mutation: nat
    var data: Data
    var baseline: bool
    var debounce: nat
    var jitter: nat
    var dirty: bool
    var deadline: nat
    var now: nat
    var timer: bool
    var inFlight: Option<nat>
    var fetches: seq<Fetch>

    function View(): Controller
      reads this
    {
      Controller(query, started, retired, live, blocked, generation, mutation, data, baseline, debounce, jitter, dirty,
                 deadline, now, timer, inFlight, fetches)
    }

    constructor (query: Query, data: Data)
      ensures View() == Initial(query, data) && Inv(View())
    {
      this.query, this.data := query, data;
      started, retired, live, blocked, generation, mutation, baseline := false, false, true, false, 0, 0, false;
      debounce, jitter, dirty, deadline, now, timer, inFlight, fetches := 100, 50, false, 0, 0, false, None, [];
    }

    predicate IsActive()
      reads this
    {
      started && !retired && live
    }

    method DropRequests()
      modifies this
      ensures View() == InvalidateRequests(old(View()))
    {
      generation := generation + 1;
      timer, dirty := false, false;
      var previous := inFlight;
      inFlight := None;
      if previous.Some? && previous.value < |fetches| {
        fetches := fetches[previous.value := fetches[previous.value].(aborted := true)];
      }
    }

    method SendRequest()
      modifies this
      ensures View() == RunRequest(old(View()))
    {
      if !IsActive() || blocked || inFlight.Some? || !query.snapshot {
        return;
      }
      timer, dirty := false, false;
      inFlight := Some(|fetches|);
      fetches := fetches + [Fetch(generation, mutation, Queued, false)];
    }

    method ArrangeTimer(dueImmediately: bool)
      modifies this
      ensures View() == Arrange(old(View()), dueImmediately)
    {
      hide RunRequest;
      if !IsActive() || blocked || !dirty || timer {
        return;
      }
      if deadline <= now && (inFlight.Some? || dueImmediately) {
        if inFlight.None? {
          SendRequest();
        }
        return;
      }
      timer := true;
    }

    method MarkDirty(draw: nat)
      modifies this
      ensures View() == Invalidate(old(View()), draw)
    {
      hide Arrange;
      if !IsActive() || blocked || !query.snapshot {
        return;
      }
      if !dirty {
        dirty := true;
        deadline := now + debounce + (if draw <= jitter then draw else 0);
      }
      ArrangeTimer(false);
    }

    /** A change event, checked and indexed by the loops above. */
    method OnChange(payload: Option<seq<Op>>, raw: Data, adapter: Adapter, draw: nat)
      requires Inv(View())
      modifies this
      ensures Inv(View()) && View() == Changed(old(View()), payload, raw, adapter, draw)
      ensures query.snapshotMode && ValidRows(old(data), query.where) ==> ValidRows(data, query.where)
    {
      hide Invalidate, Inv, HasKind, ValidOps, ValidRows, IdsOfKind, KeysOf, Without, InView;
      ChangedInv(View(), payload, raw, adapter, draw);
      if query.snapshotMode && ValidRows(data, query.where) {
        EditKeepsRows(View(), payload, raw, adapter, draw);
      }
      if !IsActive() || blocked {
        return;
      }
      if !query.snapshotMode {
        data := raw;
        return;
      }
      if !query.hasView || payload.None? {
        MarkDirty(draw);
        return;
      }
      var ops := payload.value;
      var sound := Operations(ops);
      if !sound {
        MarkDirty(draw);
        return;
      }
      OnOperations(ops, adapter, draw);
    }

    method OnOperations(ops: seq<Op>, adapter: Adapter, draw: nat)
      modifies this
      ensures View() == ApplyOps(old(View()), ops, adapter, draw)
    {
      hide Invalidate, HasKind, DeleteRows, InsertRows;
      var deletes := HasKind(query.where, ops, Delete);
      var inserts := HasKind(query.where, ops, Insert);
      var updates := HasKind(query.where, ops, Update);
      if !deletes && !inserts && !updates {
        return;
      }
      var barrier := deletes && inFlight.Some?;
      if barrier {
        mutation := mutation + 1;
      }
      var rows := RowsById(data, query.where);
      if !baseline || rows.None? || updates || (deletes && inserts) {
        MarkDirty(draw);
        return;
      }
      if deletes {
        OnDeletes(ops, barrier, draw);
      } else {
        OnInserts(ops, adapter, draw);
      }
    }

    method OnDeletes(ops: seq<Op>, barrier: bool, draw: nat)
      requires data.Rows?
      modifies this
      ensures View() == DeleteRows(old(View()), ops, barrier, draw)
    {
      hide Invalidate, IdsOfKind, Without;
      var next := Without(data.rows, IdsOfKind(ops, Delete));
      if |next| != |data.rows| {
        if !barrier {
          mutation := mutation + 1;
        }
        data := Rows(next);
      }
      if barrier {
        MarkDirty(draw);
      }
    }

    method OnInserts(ops: seq<Op>, adapter: Adapter, draw: nat)
      requires ValidRows(data, query.where)
      modifies this
      ensures View() == InsertRows(old(View()), ops, adapter, draw)
    {
      hide Invalidate, IdsOfKind, KeysOf, InView;
      if !adapter.Captured? {
        MarkDirty(draw);
        return;
      }
      var all := RowsById(Rows(adapter.rows), None);
      if all.None? || all.value.Keys != IdsOfKind(ops, Insert) {
        MarkDirty(draw);
        return;
      }
      var rows := RowsById(data, query.where);
      var additions := InView(adapter.rows, query.where);
      if KeysOf(additions) * rows.value.Keys != {} {
        MarkDirty(draw);
        return;
      }
      mutation := mutation + 1;
      data := Rows(data.rows + additions);
      if inFlight.Some? {
        MarkDirty(draw);
      }
    }

    /** The request's first continuation: it is sent only if it still speaks for the controller. */
    method OnLaunch(k: nat)
      requires Inv(View()) && k < |fetches| && fetches[k].stage == Queued
      modifies this`fetches
      ensures Inv(View()) && View() == Happen(old(View()), Launch(k), 0)
    {
      hide Inv;
      HappenInv(View(), Launch(k), 0);
      var go := IsActive() && !blocked && inFlight == Some(k) && generation == fetches[k].generation;
      fetches := fetches[k := fetches[k].(stage := if go then Requested else Skipped)];
    }

    method MarkFetch(k: nat, stage: Stage)
      requires k < |fetches|
      modifies this`fetches
      ensures View() == SetFetch(old(View()), k, stage)
    {
      fetches := fetches[k := fetches[k].(stage := stage)];
    }

    /** The response, installed unless something was edited since the request started. */
    method OnHandle(k: nat, draw: nat)
      requires Inv(View()) && k < |fetches|
      requires fetches[k].stage.Responded? || fetches[k].stage == Rejected || fetches[k].stage == Skipped
      modifies this
      ensures Inv(View()) && View() == Happen(old(View()), Handle(k), draw)
    {
      hide Inv, Invalidate, Happen, SetFetch;
      HappenInv(View(), Handle(k), draw);
      HandleIs(View(), k, draw);
      var fetch := fetches[k];
      MarkFetch(k, Handled);
      if !IsActive() || inFlight != Some(k) || generation != fetch.generation {
        return;
      }
      if fetch.mutation != mutation {
        MarkDirty(draw);
      } else if !fetch.stage.Rejected? {
        data := if fetch.stage.Responded? then fetch.stage.value else UNDEFINED;
        baseline := true;
      }
    }

    method OnSettle(k: nat)
      requires Inv(View()) && k < |fetches| && fetches[k].stage == Handled
      modifies this
      ensures Inv(View()) && View() == Happen(old(View()), Settle(k), 0)
    {
      hide Inv, Arrange;
      HappenInv(View(), Settle(k), 0);
      var generationThen := fetches[k].generation;
      fetches := fetches[k := fetches[k].(stage := Finished)];
      if !IsActive() || inFlight != Some(k) || generation != generationThen {
        return;
      }
      inFlight := None;
      ArrangeTimer(true);
    }

    method OnTimer()
      requires Inv(View()) && timer
      modifies this
      ensures Inv(View()) && View() == Happen(old(View()), TimerFired, 0)
    {
      hide Inv, RunRequest;
      HappenInv(View(), TimerFired, 0);
      timer := false;
      if IsActive() && !blocked && dirty && inFlight.None? {
        SendRequest();
      }
    }

    method OnReady(debounceMs: int, jitterMs: int)
      requires Inv(View())
      modifies this
      ensures Inv(View()) && View() == Happen(old(View()), Ready(debounceMs, jitterMs), 0)
    {
      hide Inv, RunRequest;
      HappenInv(View(), Ready(debounceMs, jitterMs), 0);
      if !IsActive() {
        return;
      }
      debounce, jitter := AdviceValue(debounceMs, 100, 60000), AdviceValue(jitterMs, 50, 5000);
      var recovering := blocked;
      blocked := false;
      if recovering {
        SendRequest();
      }
    }

    method OnError(blocking: bool)
      requires Inv(View())
      modifies this
      ensures Inv(View()) && View() == Happen(old(View()), Error(blocking), 0)
    {
      hide Inv, InvalidateRequests;
      HappenInv(View(), Error(blocking), 0);
      if IsActive() && blocking {
        blocked := true;
        DropRequests();
      }
    }
  }
}
