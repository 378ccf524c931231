/** Login, personal access tokens and account recovery as interleaved transactions (auth/handlers.cpp: handle_login,
    handle_recovery, handle_logout, handle_delete_session; auth/pat_handlers.cpp: handle_create_pat,
    handle_revoke_pat). The database runs READ COMMITTED: a statement sees what was committed when it started, a
    transaction's own writes reach the tables when it commits, and a user row locked FOR UPDATE is held until then.
    Password hashes are opaque. */
module Credentials {
  import opened Wrappers

  type Hash = nat

  datatype User = User(hash: Hash, disabled: bool)
  /** `issued` is the hash the password was verified against when the credential was obtained. */
  datatype Session = Session(user: nat, issued: Hash, revoked: bool, expired: bool)
  datatype Pat = Pat(user: nat, session: nat, issued: Hash, revoked: bool)

  datatype Work =
    | LoginWork(user: nat, verified: Hash)
    | PatWork(user: nat, session: nat)
    | RecoveryWork(user: nat, hash: Hash)

  /** `Staged` holds the rows a recovery statement found unrevoked; logins and PATs stage nothing but themselves. */
  datatype Stage = Begun | Locked | Staged(sessions: set<nat>, pats: set<nat>) | Ended(committed: bool)

  datatype Txn = Txn(work: Work, stage: Stage)

  datatype Db = Db(
    users: seq<User>,
    sessions: seq<Session>,
    pats: seq<Pat>,
    locks: seq<Option<nat>>,
    txns: seq<Txn>)

  datatype Event =
    | AddUser(hash: Hash)
    | SetDisabled(user: nat, disabled: bool)
    | Verify(user: nat, matches: bool)
    | RequestPat(session: nat)
    | RequestRecovery(user: nat, hash: Hash)
    | Lock(txn: nat)
    | Execute(txn: nat)
    | Finish(txn: nat, commit: bool)
    | RevokeSession(session: nat)
    | RevokePat(pat: nat)
    | Expire(session: nat)

  // ----- steps -----

  function LiveSessions(db: Db, user: nat): set<nat> {
    set s | 0 <= s < |db.sessions| && db.sessions[s].user == user && !db.sessions[s].revoked
  }

  function LivePats(db: Db, user: nat): set<nat> {
    set p | 0 <= p < |db.pats| && db.pats[p].user == user && !db.pats[p].revoked
  }

  function RevokeSessions(sessions: seq<Session>, ids: set<nat>): (r: seq<Session>)
    ensures |r| == |sessions|
    ensures forall i :: 0 <= i < |r| ==> r[i] == if i in ids then sessions[i].(revoked := true) else sessions[i]
  {
    if sessions == [] then []
    else
      var n := |sessions| - 1;
      RevokeSessions(sessions[..n], ids) + [if n in ids then sessions[n].(revoked := true) else sessions[n]]
  }

  function RevokePats(pats: seq<Pat>, ids: set<nat>): (r: seq<Pat>)
    ensures |r| == |pats|
    ensures forall i :: 0 <= i < |r| ==> r[i] == if i in ids then pats[i].(revoked := true) else pats[i]
  {
    if pats == [] then []
    else
      var n := |pats| - 1;
      RevokePats(pats[..n], ids) + [if n in ids then pats[n].(revoked := true) else pats[n]]
  }

  function SetStage(db: Db, t: nat, stage: Stage): Db
    requires t < |db.txns|
  {
    db.(txns := db.txns[t := db.txns[t].(stage := stage)])
  }

  /** The end of a transaction gives back the user row if it holds it. */
  function End(db: Db, t: nat, committed: bool): Db
    requires t < |db.txns|
  {
    var u := db.txns[t].work.user;
    var freed := if u < |db.locks| && db.locks[u] == Some(t) then db.(locks := db.locks[u := None]) else db;
    SetStage(freed, t, Ended(committed))
  }

  /** The statement each transaction runs under the user's row lock, against the committed tables. */
  function Executed(db: Db, t: nat): Db
    requires t < |db.txns| && db.txns[t].work.user < |db.users|
  {
    var w := db.txns[t].work;
    match w
    case LoginWork(u, verified) =>
      if db.users[u].hash == verified && !db.users[u].disabled then SetStage(db, t, Staged({}, {}))
      else End(db, t, false)
    case PatWork(u, s) =>
      if s < |db.sessions| && db.sessions[s].user == u && !db.sessions[s].revoked && !db.sessions[s].expired
         && !db.users[u].disabled
      then SetStage(db, t, Staged({}, {})) else End(db, t, false)
    case RecoveryWork(u, _) => SetStage(db, t, Staged(LiveSessions(db, u), LivePats(db, u)))
  }

  /** What a commit publishes. */
  function Published(db: Db, t: nat): Db
    requires t < |db.txns| && db.txns[t].work.user < |db.users|
  {
    var w := db.txns[t].work;
    match w
    case LoginWork(u, verified) => db.(sessions := db.sessions + [Session(u, verified, false, false)])
    case PatWork(u, s) =>
      if s < |db.sessions| then db.(pats := db.pats + [Pat(u, s, db.sessions[s].issued, false)]) else db
    case RecoveryWork(u, hash) =>
      if !db.txns[t].stage.Staged? then db
      else db.(users := db.users[u := db.users[u].(hash := hash)],
               sessions := RevokeSessions(db.sessions, db.txns[t].stage.sessions),
               pats := RevokePats(db.pats, db.txns[t].stage.pats))
  }

  function Step(db: Db, e: Event): Db {
    match e
    case AddUser(hash) => db.(users := db.users + [User(hash, false)], locks := db.locks + [None])
    case SetDisabled(u, disabled) =>
      if u < |db.users| && u < |db.locks| && db.locks[u].None?
      then db.(users := db.users[u := db.users[u].(disabled := disabled)]) else db
    case Verify(u, matches) =>
      if u < |db.users| && matches && !db.users[u].disabled
      then db.(txns := db.txns + [Txn(LoginWork(u, db.users[u].hash), Begun)]) else db
    case RequestPat(s) =>
      if s < |db.sessions| then db.(txns := db.txns + [Txn(PatWork(db.sessions[s].user, s), Begun)]) else db
    case RequestRecovery(u, hash) =>
      if u < |db.users| then db.(txns := db.txns + [Txn(RecoveryWork(u, hash), Begun)]) else db
    case Lock(t) =>
      if t < |db.txns| && db.txns[t].stage == Begun && db.txns[t].work.user < |db.locks|
         && db.locks[db.txns[t].work.user].None?
      then SetStage(db.(locks := db.locks[db.txns[t].work.user := Some(t)]), t, Locked) else db
    case Execute(t) =>
      if t < |db.txns| && db.txns[t].stage == Locked && db.txns[t].work.user < |db.users| then Executed(db, t) else db
    case Finish(t, commit) =>
      if t >= |db.txns| || db.txns[t].stage.Ended? then db
      else if commit && db.txns[t].stage.Staged?
          && db.txns[t].work.user < |db.users| then End(Published(db, t), t, true)
      else End(db, t, false)
    case RevokeSession(s) =>
      if s < |db.sessions| then db.(sessions := db.sessions[s := db.sessions[s].(revoked := true)]) else db
    case RevokePat(p) =>
      if p < |db.pats| then db.(pats := db.pats[p := db.pats[p].(revoked := true)]) else db
    case Expire(s) =>
      if s < |db.sessions| then db.(sessions := db.sessions[s := db.sessions[s].(expired := true)]) else db
  }

  const EMPTY := Db([], [], [], [], [])

  function After(es: seq<Event>, i: nat): Db
    requires i <= |es|
  {
    if i == 0 then EMPTY else Step(After(es, i - 1), es[i - 1])
  }

  // ----- what every step keeps -----

  predicate SessionOk(db: Db, s: Session) {
    s.user < |db.users| && (!s.revoked ==> s.issued == db.users[s.user].hash)
  }

  predicate PatOk(db: Db, p: Pat) {
    && p.user < |db.users| && p.session < |db.sessions|
    && db.sessions[p.session].user == p.user && db.sessions[p.session].issued == p.issued
    && (!p.revoked ==> p.issued == db.users[p.user].hash)
  }

  predicate TxnOk(db: Db, t: nat)
    requires t < |db.txns|
  {
    var txn := db.txns[t];
    && txn.work.user < |db.users| == |db.locks|
    && (txn.work.PatWork? ==> txn.work.session < |db.sessions| && db.sessions[txn.work.session].user == txn.work.user)
    && (txn.stage.Locked? || txn.stage.Staged? ==> db.locks[txn.work.user] == Some(t))
    && (txn.stage.Staged? ==>
          match txn.work
          case LoginWork(u, verified) => verified == db.users[u].hash
          case PatWork(u, s) => db.sessions[s].issued == db.users[u].hash
          case RecoveryWork(u, _) => LiveSessions(db, u) <= txn.stage.sessions && LivePats(db, u) <= txn.stage.pats)
  }

  predicate Inv(db: Db) {
    && |db.locks| == |db.users|
    && (forall s :: 0 <= s < |db.sessions| ==> SessionOk(db, db.sessions[s]))
    && (forall p :: 0 <= p < |db.pats| ==> PatOk(db, db.pats[p]))
    && (forall t :: 0 <= t < |db.txns| ==> TxnOk(db, t))
  }

  /** Transaction `t` keeps what it relies on when its user row, and the rows of its user, are not disturbed. */
  lemma TxnFrame(db: Db, next: Db, t: nat)
    requires t < |db.txns| && t < |next.txns| && next.txns[t] == db.txns[t] && TxnOk(db, t)
    requires |db.users| <= |next.users| == |next.locks| && |db.sessions| <= |next.sessions|
    requires var u := db.txns[t].work.user;
             && next.users[u].hash == db.users[u].hash && next.locks[u] == db.locks[u]
             && LiveSessions(next, u) <= LiveSessions(db, u) && LivePats(next, u) <= LivePats(db, u)
    requires forall s :: 0 <= s < |db.sessions| ==>
               next.sessions[s].user == db.sessions[s].user && next.sessions[s].issued == db.sessions[s].issued
    ensures TxnOk(next, t)
  {
  }

  /** Steps that leave users' hashes and locks alone and only narrow what is live. */
  lemma NarrowingInv(db: Db, next: Db)
    requires Inv(db) && next.txns == db.txns && next.locks == db.locks
    requires |next.users| == |db.users| && forall u :: 0 <= u < |db.users| ==> next.users[u].hash == db.users[u].hash
    requires |next.sessions| == |db.sessions| && |next.pats| == |db.pats|
    requires forall s :: 0 <= s < |db.sessions| ==>
               next.sessions[s] == db.sessions[s].(revoked := next.sessions[s].revoked,
                                                   expired := next.sessions[s].expired)
               && (db.sessions[s].revoked ==> next.sessions[s].revoked)
    requires forall p :: 0 <= p < |db.pats| ==>
               next.pats[p] == db.pats[p].(revoked := next.pats[p].revoked)
                   && (db.pats[p].revoked ==> next.pats[p].revoked)
    ensures Inv(next)
  {
    assert forall s :: 0 <= s < |db.sessions| ==> SessionOk(db, db.sessions[s]);
    assert forall p :: 0 <= p < |db.pats| ==> PatOk(db, db.pats[p]);
    forall t | 0 <= t < |db.txns|
      ensures TxnOk(next, t)
    {
      TxnFrame(db, next, t);
    }
  }

  lemma RequestInv(db: Db, work: Work)
    requires Inv(db) && work.user < |db.users|
    requires work.PatWork? ==> work.session < |db.sessions| && db.sessions[work.session].user == work.user
    ensures Inv(db.(txns := db.txns + [Txn(work, Begun)]))
  {
    var next := db.(txns := db.txns + [Txn(work, Begun)]);
    assert forall s :: 0 <= s < |db.sessions| ==> SessionOk(db, db.sessions[s]);
    assert forall p :: 0 <= p < |db.pats| ==> PatOk(db, db.pats[p]);
    forall t | 0 <= t < |next.txns|
      ensures TxnOk(next, t)
    {
      if t < |db.txns| {
        TxnFrame(db, next, t);
      }
    }
  }

  lemma AddUserInv(db: Db, hash: Hash)
    requires Inv(db)
    ensures Inv(Step(db, AddUser(hash)))
  {
    var next := Step(db, AddUser(hash));
    assert forall s :: 0 <= s < |db.sessions| ==> SessionOk(db, db.sessions[s]);
    assert forall p :: 0 <= p < |db.pats| ==> PatOk(db, db.pats[p]);
    forall t | 0 <= t < |next.txns|
      ensures TxnOk(next, t)
    {
      assert TxnOk(db, t);
      TxnFrame(db, next, t);
    }
  }

  lemma LockInv(db: Db, t: nat)
    requires Inv(db)
    ensures Inv(Step(db, Lock(t)))
  {
    var next := Step(db, Lock(t));
    if next != db {
      assert forall s :: 0 <= s < |db.sessions| ==> SessionOk(db, db.sessions[s]);
      assert forall p :: 0 <= p < |db.pats| ==> PatOk(db, db.pats[p]);
      forall k | 0 <= k < |next.txns|
        ensures TxnOk(next, k)
      {
        assert TxnOk(db, k);
      }
    }
  }

  /** Ending a transaction frees only its own lock. */
  lemma EndInv(db: Db, t: nat, committed: bool)
    requires Inv(db) && t < |db.txns|
    ensures Inv(End(db, t, committed))
  {
    var next := End(db, t, committed);
    assert forall s :: 0 <= s < |db.sessions| ==> SessionOk(db, db.sessions[s]);
    assert forall p :: 0 <= p < |db.pats| ==> PatOk(db, db.pats[p]);
    forall k | 0 <= k < |next.txns|
      ensures TxnOk(next, k)
    {
      assert TxnOk(db, k);
    }
  }

  lemma ExecuteInv(db: Db, t: nat)
    requires Inv(db) && t < |db.txns| && db.txns[t].stage == Locked
    requires db.txns[t].work.user < |db.users|
    ensures Inv(Executed(db, t))
  {
    hide End;
    var next := Executed(db, t);
    assert TxnOk(db, t);
    EndInv(db, t, false);
    if next != End(db, t, false) {
      assert forall s :: 0 <= s < |db.sessions| ==> SessionOk(db, db.sessions[s]);
      assert forall p :: 0 <= p < |db.pats| ==> PatOk(db, db.pats[p]);
      forall k | 0 <= k < |next.txns|
        ensures TxnOk(next, k)
      {
        assert TxnOk(db, k);
      }
    }
  }

  /** No other transaction has read anything under the same user's lock. */
  lemma AloneOnUser(db: Db, t: nat, k: nat)
    requires Inv(db) && t < |db.txns| && k < |db.txns| && t != k && db.txns[t].stage.Staged?
    requires db.txns[k].work.user == db.txns[t].work.user
    ensures !db.txns[k].stage.Staged? && !db.txns[k].stage.Locked?
  {
    assert TxnOk(db, t) && TxnOk(db, k);
  }

  /** Publishing needs the transaction to be over before the invariant is whole again. */
  lemma CommitInv(db: Db, t: nat)
    requires Inv(db) && t < |db.txns| && db.txns[t].stage.Staged? && db.txns[t].work.user < |db.users|
    ensures Inv(End(Published(db, t), t, true))
  {
    assert TxnOk(db, t);
    match db.txns[t].work
    case LoginWork(_, _) => CommitLogin(db, t);
    case PatWork(_, _) => CommitPat(db, t);
    case RecoveryWork(_, _) => CommitRecovery(db, t);
  }

  lemma CommitLogin(db: Db, t: nat)
    requires Inv(db) && t < |db.txns| && db.txns[t].stage.Staged? && db.txns[t].work.LoginWork?
    requires TxnOk(db, t)
    ensures Inv(End(Published(db, t), t, true))
  {
    var u, next := db.txns[t].work.user, End(Published(db, t), t, true);
    assert forall s :: 0 <= s < |db.sessions| ==> SessionOk(db, db.sessions[s]);
    assert forall p :: 0 <= p < |db.pats| ==> PatOk(db, db.pats[p]);
    forall k | 0 <= k < |next.txns|
      ensures TxnOk(next, k)
    {
      assert TxnOk(db, k);
      if k != t && db.txns[k].work.user == u {
        AloneOnUser(db, t, k);
      } else if k != t {
        TxnFrame(db, next, k);
      }
    }
  }

  lemma CommitPat(db: Db, t: nat)
    requires Inv(db) && t < |db.txns| && db.txns[t].stage.Staged? && db.txns[t].work.PatWork?
    requires TxnOk(db, t)
    ensures Inv(End(Published(db, t), t, true))
  {
    var u, next := db.txns[t].work.user, End(Published(db, t), t, true);
    assert forall s :: 0 <= s < |db.sessions| ==> SessionOk(db, db.sessions[s]);
    assert forall p :: 0 <= p < |db.pats| ==> PatOk(db, db.pats[p]);
    forall k | 0 <= k < |next.txns|
      ensures TxnOk(next, k)
    {
      assert TxnOk(db, k);
      if k != t && db.txns[k].work.user == u {
        AloneOnUser(db, t, k);
      } else if k != t {
        TxnFrame(db, next, k);
      }
    }
  }

  lemma CommitRecovery(db: Db, t: nat)
    requires Inv(db) && t < |db.txns| && db.txns[t].stage.Staged? && db.txns[t].work.RecoveryWork?
    requires TxnOk(db, t)
    ensures Inv(End(Published(db, t), t, true)) && Revoked(End(Published(db, t), t, true), db.txns[t].work.user)
  {
    var u, next := db.txns[t].work.user, End(Published(db, t), t, true);
    forall s | 0 <= s < |db.sessions|
      ensures SessionOk(next, next.sessions[s]) && (next.sessions[s].user == u ==> next.sessions[s].revoked)
    {
      assert SessionOk(db, db.sessions[s]);
      assert db.sessions[s].user == u && !db.sessions[s].revoked ==> s in LiveSessions(db, u);
    }
    forall p | 0 <= p < |db.pats|
      ensures PatOk(next, next.pats[p]) && (next.pats[p].user == u ==> next.pats[p].revoked)
    {
      assert PatOk(db, db.pats[p]);
      assert db.pats[p].user == u && !db.pats[p].revoked ==> p in LivePats(db, u);
    }
    forall k | 0 <= k < |next.txns|
      ensures TxnOk(next, k)
    {
      assert TxnOk(db, k);
      if k != t && db.txns[k].work.user == u {
        AloneOnUser(db, t, k);
      } else if k != t {
        TxnFrame(db, next, k);
      }
    }
  }

  /** Every credential of the user is revoked. */
  predicate Revoked(db: Db, u: nat) {
    LiveSessions(db, u) == {} && LivePats(db, u) == {}
  }

  lemma StepInv(db: Db, e: Event)
    requires Inv(db)
    ensures Inv(Step(db, e))
  {
    hide Inv, Executed, Published, End;
    match e
    case AddUser(hash) => AddUserInv(db, hash);
    case Verify(u, _) => if u < |db.users| { RequestInv(db, LoginWork(u, db.users[u].hash)); }
    case RequestPat(s) => if s < |db.sessions| { SessionUser(db, s); RequestInv(db, PatWork(db.sessions[s].user, s)); }
    case RequestRecovery(u, hash) => if u < |db.users| { RequestInv(db, RecoveryWork(u, hash)); }
    case Lock(t) => LockInv(db, t);
    case Execute(t) =>
      if t < |db.txns| && db.txns[t].stage == Locked && db.txns[t].work.user < |db.users| {
        ExecuteInv(db, t);
      }
    case Finish(t, commit) =>
      if t < |db.txns| {
        EndInv(db, t, false);
        if db.txns[t].stage.Staged? && db.txns[t].work.user < |db.users| {
          CommitInv(db, t);
        }
      }
    case _ => NarrowingInv(db, Step(db, e));
  }

  lemma SessionUser(db: Db, s: nat)
    requires Inv(db) && s < |db.sessions|
    ensures db.sessions[s].user < |db.users|
  {
    assert SessionOk(db, db.sessions[s]);
  }

  /** Rows are only added, a credential keeps its owner and hash, and revocation is final. */
  predicate Later(db: Db, next: Db) {
    && |db.sessions| <= |next.sessions| && |db.pats| <= |next.pats|
    && (forall s :: 0 <= s < |db.sessions| ==>
          && next.sessions[s].user == db.sessions[s].user && next.sessions[s].issued == db.sessions[s].issued
          && (db.sessions[s].revoked ==> next.sessions[s].revoked))
    && (forall p :: 0 <= p < |db.pats| ==>
          && next.pats[p].user == db.pats[p].user && next.pats[p].session == db.pats[p].session
          && (db.pats[p].revoked ==> next.pats[p].revoked))
  }

  lemma StepLater(db: Db, e: Event)
    ensures Later(db, Step(db, e))
  {
    hide Executed, Published, End;
    if e.Execute? && e.txn < |db.txns| && db.txns[e.txn].work.user < |db.users| {
      ExecutedLater(db, e.txn);
    } else if e.Finish? && e.txn < |db.txns| {
      EndLater(db, e.txn, false);
      if db.txns[e.txn].work.user < |db.users| {
        PublishedLater(db, e.txn);
        EndLater(Published(db, e.txn), e.txn, true);
      }
    }
  }

  lemma EndLater(db: Db, t: nat, committed: bool)
    requires t < |db.txns|
    ensures End(db, t, committed).sessions == db.sessions && End(db, t, committed).pats == db.pats
  {
  }

  lemma ExecutedLater(db: Db, t: nat)
    requires t < |db.txns| && db.txns[t].work.user < |db.users|
    ensures Executed(db, t).sessions == db.sessions && Executed(db, t).pats == db.pats
  {
    hide LiveSessions, LivePats;
  }

  lemma PublishedLater(db: Db, t: nat)
    requires t < |db.txns| && db.txns[t].work.user < |db.users|
    ensures Later(db, Published(db, t)) && Published(db, t).txns == db.txns
  {
  }

  lemma {:induction false} RunInv(es: seq<Event>, i: nat, j: nat)
    requires i <= j <= |es|
    ensures Inv(After(es, i)) && Inv(After(es, j)) && Later(After(es, i), After(es, j))
    decreases j
  {
    hide Step, Inv;
    if j == 0 {
      EmptyInv();
    } else {
      RunInv(es, if i < j then i else j - 1, j - 1);
      StepInv(After(es, j - 1), es[j - 1]);
      StepLater(After(es, j - 1), es[j - 1]);
    }
  }

  lemma EmptyInv()
    ensures Inv(EMPTY)
  {
  }

  /** In every interleaving: an unrevoked session was issued against its user's current password hash, and an unrevoked
      PAT through a session of the same user and that same hash. */
  lemma LiveCredentialsAreCurrent(es: seq<Event>, i: nat)
    requires i <= |es|
    ensures var db := After(es, i);
            && (forall s :: 0 <= s < |db.sessions| && !db.sessions[s].revoked ==>
                  db.sessions[s].user < |db.users| && db.sessions[s].issued == db.users[db.sessions[s].user].hash)
            && (forall p :: 0 <= p < |db.pats| && !db.pats[p].revoked ==>
                  && db.pats[p].user < |db.users| && db.pats[p].session < |db.sessions|
                  && db.sessions[db.pats[p].session].user == db.pats[p].user
                  && db.sessions[db.pats[p].session].issued == db.users[db.pats[p].user].hash)
  {
    RunInv(es, i, i);
    var db := After(es, i);
    assert forall s :: 0 <= s < |db.sessions| ==> SessionOk(db, db.sessions[s]);
    assert forall p :: 0 <= p < |db.pats| ==> PatOk(db, db.pats[p]);
  }

  /** A committed recovery: at once every session and PAT of the user is revoked, and none of them is ever live again,
      whatever logins, PAT requests or other recoveries were under way. */
  lemma RecoveryEndsCredentials(es: seq<Event>, i: nat, j: nat, t: nat)
    requires i < j <= |es| && es[i] == Finish(t, true) && t < |After(es, i).txns|
    requires After(es, i).txns[t].work.RecoveryWork? && After(es, i).txns[t].stage.Staged?
    ensures var now, later, w := After(es, i + 1), After(es, j), After(es, i).txns[t].work;
            && w.user < |now.users| && now.users[w.user].hash == w.hash
            && Revoked(now, w.user)
            && (forall s :: 0 <= s < |now.sessions| && now.sessions[s].user == w.user ==>
                  s < |later.sessions| && later.sessions[s].revoked)
            && (forall p :: 0 <= p < |now.pats| && now.pats[p].user == w.user ==>
                p < |later.pats| && later.pats[p].revoked)
  {
    hide Later, Step, Inv, Revoked;
    RunInv(es, i, i + 1);
    RunInv(es, i + 1, j);
    assert After(es, i + 1) == Step(After(es, i), es[i]);
    RecoveryCommitted(After(es, i), t);
    RevokedStays(After(es, i + 1), After(es, j), After(es, i).txns[t].work.user);
  }

  lemma RecoveryCommitted(db: Db, t: nat)
    requires Inv(db) && t < |db.txns| && db.txns[t].work.RecoveryWork? && db.txns[t].stage.Staged?
    ensures var next := Step(db, Finish(t, true));
            && db.txns[t].work.user < |next.users| && next.users[db.txns[t].work.user].hash == db.txns[t].work.hash
            && Revoked(next, db.txns[t].work.user)
  {
    assert TxnOk(db, t);
    CommitRecovery(db, t);
  }

  lemma RevokedStays(now: Db, later: Db, u: nat)
    requires Revoked(now, u) && Later(now, later)
    ensures forall s :: 0 <= s < |now.sessions| && now.sessions[s].user == u ==>
              s < |later.sessions| && later.sessions[s].revoked
    ensures forall p :: 0 <= p < |now.pats| && now.pats[p].user == u ==> p < |later.pats| && later.pats[p].revoked
  {
    forall s | 0 <= s < |now.sessions| && now.sessions[s].user == u
      ensures later.sessions[s].revoked
    {
      assert s !in LiveSessions(now, u);
    }
    forall p | 0 <= p < |now.pats| && now.pats[p].user == u
      ensures later.pats[p].revoked
    {
      assert p !in LivePats(now, u);
    }
  }

  // ----- the handlers' transactions over mutable tables -----

  lemma TxnUser(db: Db, t: nat)
    requires Inv(db) && t < |db.txns|
    ensures db.txns[t].work.user < |db.users|
  {
    assert TxnOk(db, t);
  }

  lemma EndedTxn(db: Db, t: nat)
    requires t < |db.txns|
    ensures |End(db, t, false).txns| == |db.txns| && End(db, t, false).txns[t] == Txn(db.txns[t].work, Ended(false))
  {
  }

  class Tables {
    var users: seq<User>
    var sessions: seq<Session>
    var pats: seq<Pat>
    var locks: seq<Option<nat>>
    var txns: seq<Txn>

    function View(): Db
      reads this
    {
      Db(users, sessions, pats, locks, txns)
    }

    constructor ()
      ensures View() == EMPTY && Inv(View())
    {
      users, sessions, pats, locks, txns := [], [], [], [], [];
    }

    /** handle_login up to the new transaction: the hash it verified against is remembered, no lock is held. */
    method VerifyLogin(u: nat, matches: bool) returns (txn: Option<nat>)
      requires Inv(View())
      modifies this`txns
      ensures Inv(View()) && View() == Step(old(View()), Verify(u, matches))
      ensures txn.Some? <==> u < |users| && matches && !users[u].disabled
      ensures txn.Some? ==> txn.value < |txns| && txns[txn.value] == Txn(LoginWork(u, users[u].hash), Begun)
    {
      hide Inv;
      StepInv(View(), Verify(u, matches));
      if u >= |users| || !matches || users[u].disabled {
        return None;
      }
      txn := Some(|txns|);
      txns := txns + [Txn(LoginWork(u, users[u].hash), Begun)];
    }

    /** SELECT ... FOR UPDATE on the user row. */
    method LockUser(t: nat) returns (granted: bool)
      requires Inv(View()) && t < |txns| && txns[t].stage == Begun
      modifies this`txns, this`locks
      ensures Inv(View()) && View() == Step(old(View()), Lock(t))
      ensures granted ==> txns[t].stage == Locked && txns[t].work == old(txns[t].work)
    {
      hide Inv;
      StepInv(View(), Lock(t));
      var u := txns[t].work.user;
      granted := u < |locks| && locks[u].None?;
      if granted {
        locks := locks[u := Some(t)];
        txns := txns[t := txns[t].(stage := Locked)];
      }
    }

    /** Rolling back or losing a transaction: its lock goes and nothing it did is seen. */
    method Abort(t: nat)
      requires Inv(View()) && t < |txns|
      modifies this`txns, this`locks
      ensures Inv(View()) && View() == End(old(View()), t, false)
    {
      hide Inv;
      EndInv(View(), t, false);
      var u := txns[t].work.user;
      if u < |locks| && locks[u] == Some(t) {
        locks := locks[u := None];
      }
      txns := txns[t := txns[t].(stage := Ended(false))];
    }

    /** INSERT ... SELECT for a session: only if the hash verified earlier is still the user's. */
    method InsertSession(t: nat) returns (staged: bool)
      requires Inv(View()) && t < |txns| && txns[t].stage == Locked && txns[t].work.LoginWork?
      modifies this`txns, this`locks
      ensures Inv(View()) && View() == Step(old(View()), Execute(t))
      ensures |txns| == old(|txns|) && (staged <==> txns[t].stage.Staged?)
    {
      hide Inv, End;
      TxnUser(View(), t);
      StepInv(View(), Execute(t));
      var w := txns[t].work;
      staged := users[w.user].hash == w.verified && !users[w.user].disabled;
      if staged {
        txns := txns[t := txns[t].(stage := Staged({}, {}))];
      } else {
        EndedTxn(View(), t);
        Abort(t);
      }
    }

    /** INSERT ... SELECT for a PAT: only through a session that is still good, read under the user's lock. */
    method InsertPat(t: nat) returns (staged: bool)
      requires Inv(View()) && t < |txns| && txns[t].stage == Locked && txns[t].work.PatWork?
      modifies this`txns, this`locks
      ensures Inv(View()) && View() == Step(old(View()), Execute(t))
      ensures |txns| == old(|txns|) && (staged <==> txns[t].stage.Staged?)
    {
      hide Inv, End;
      TxnUser(View(), t);
      StepInv(View(), Execute(t));
      var w := txns[t].work;
      staged := w.session < |sessions| && sessions[w.session].user == w.user && !sessions[w.session].revoked
      && !sessions[w.session].expired && !users[w.user].disabled;
      if staged {
        txns := txns[t := txns[t].(stage := Staged({}, {}))];
      } else {
        EndedTxn(View(), t);
        Abort(t);
      }
    }

    /** The recovery statement: the new hash and the revocations, seen by others only at commit. */
    method Recover(t: nat)
      requires Inv(View()) && t < |txns| && txns[t].stage == Locked && txns[t].work.RecoveryWork?
      modifies this`txns
      ensures Inv(View()) && View() == Step(old(View()), Execute(t))
    {
      hide Inv;
      TxnUser(View(), t);
      StepInv(View(), Execute(t));
      var u := txns[t].work.user;
      txns := txns[t := txns[t].(stage := Staged(LiveSessions(View(), u), LivePats(View(), u)))];
    }

    method Commit(t: nat)
      requires Inv(View()) && t < |txns| && txns[t].stage.Staged?
      modifies this
      ensures Inv(View()) && View() == Step(old(View()), Finish(t, true))
      ensures old(txns[t].work.RecoveryWork?) ==> Revoked(View(), old(txns[t].work.user))
    {
      hide Inv, Revoked;
      TxnUser(View(), t);
      StepInv(View(), Finish(t, true));
      if txns[t].work.RecoveryWork? {
        RecoveryCommitted(View(), t);
      }
      var w, stage := txns[t].work, txns[t].stage;
      match w {
        case LoginWork(u, verified) => sessions := sessions + [Session(u, verified, false, false)];
        case PatWork(u, s) => if s < |sessions| { pats := pats + [Pat(u, s, sessions[s].issued, false)]; }
        case RecoveryWork(u, hash) =>
          users := users[u := users[u].(hash := hash)];
          sessions := RevokeSessions(sessions, stage.sessions);
          pats := RevokePats(pats, stage.pats);
      }
      if w.user < |locks| && locks[w.user] == Some(t) {
        locks := locks[w.user := None];
      }
      txns := txns[t := txns[t].(stage := Ended(true))];
    }
  }
}
