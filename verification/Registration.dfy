/** Bootstrap, registration and invites as interleaved transactions (auth/handlers.cpp: bootstrap_user_atomic,
    register_user_atomic, register_after_invite, insert_ordinary_user, finish_invite_use, handle_revoke_invite).
    An advisory lock serialises registrations; an invite row read FOR UPDATE is held against concurrent revocation; a
    transaction's writes are seen when it commits.  Test accounts come from elsewhere, under no lock. */
module Registration {
  import opened Wrappers

  datatype Mode = Disabled | Open | InviteOnly

  datatype Origin = Bootstrapped | SelfRegistered | Invited(invite: nat) | TestAccount

  datatype Account = Account(name: string, origin: Origin)

  /** `usedBy` names the account the invite was spent on; `holder` is the transaction that has its row locked. */
  datatype Invite = Invite(token: string, usedBy: Option<nat>, revoked: bool, expired: bool, holder: Option<nat>)

  datatype Work = BootstrapWork(name: string) | RegisterWork(name: string, token: string)

  datatype Stage =
    | Begun
    | Locked
    | Counted
    | Holding(invite: nat)
    | Inserting(spending: Option<nat>)
    | Consuming(invite: nat, existing: nat)
    | Ended(committed: bool)

  datatype Txn = Txn(work: Work, stage: Stage)

  datatype Db = Db(
    mode: Mode,
    limit: nat,
    accounts: seq<Account>,
    invites: seq<Invite>,
    advisory: Option<nat>,
    txns: seq<Txn>)

  datatype Event =
    | AddTestAccount(name: string)
    | CreateInvite(token: string)
    | ExpireInvite(invite: nat)
    | RevokeInvite(invite: nat)
    | Begin(work: Work)
    | TakeAdvisory(txn: nat)
    | Count(txn: nat)
    | TakeInvite(txn: nat)
    | LookUp(txn: nat)
    | Finish(txn: nat, commit: bool)

  // ----- steps -----

  predicate Ordinary(a: Account) {
    a.origin != TestAccount
  }

  /** SELECT COUNT(*) ... WHERE NOT is_test_user. */
  function Ordinaries(accounts: seq<Account>): nat {
    if accounts == [] then 0
    else Ordinaries(accounts[..|accounts| - 1]) + if Ordinary(accounts[|accounts| - 1]) then 1 else 0
  }

  predicate Usable(i: Invite, token: string) {
    i.token == token && !i.revoked && i.usedBy.None? && !i.expired
  }

  predicate Exists(accounts: seq<Account>, name: string) {
    exists a :: 0 <= a < |accounts| && accounts[a].name == name
  }

  function Find(accounts: seq<Account>, name: string): (a: nat)
    requires Exists(accounts, name)
    ensures a < |accounts| && accounts[a].name == name
  {
    if accounts[|accounts| - 1].name == name then |accounts| - 1
    else
      assert Exists(accounts[..|accounts| - 1], name) by {
        var a :| 0 <= a < |accounts| && accounts[a].name == name;
        assert accounts[..|accounts| - 1][a].name == name;
      }
      Find(accounts[..|accounts| - 1], name)
  }

  function SetStage(db: Db, t: nat, stage: Stage): Db
    requires t < |db.txns|
  {
    db.(txns := db.txns[t := db.txns[t].(stage := stage)])
  }

  function HeldInvite(stage: Stage): Option<nat> {
    match stage
    case Holding(k) => Some(k)
    case Inserting(k) => k
    case Consuming(k, _) => Some(k)
    case _ => None
  }

  /** The end of a transaction frees the advisory lock and the invite row it holds. */
  function End(db: Db, t: nat, committed: bool): Db
    requires t < |db.txns|
  {
    var k := HeldInvite(db.txns[t].stage);
    var invites := if k.Some? && k.value < |db.invites| then db.invites[k.value := db.invites[k.value].(holder := None)]
                   else db.invites;
    SetStage(db.(advisory := if db.advisory == Some(t) then None else db.advisory, invites := invites), t,
             Ended(committed))
  }

  /** The count statement and the decisions it settles. */
  function CountedBy(db: Db, t: nat): Db
    requires t < |db.txns|
  {
    var accounts := Ordinaries(db.accounts);
    if db.txns[t].work.BootstrapWork? then
      if accounts != 0 then End(db, t, false) else SetStage(db, t, Inserting(None))
    else if accounts == 0 || db.mode == Disabled || accounts >= db.limit then End(db, t, false)
    else SetStage(db, t, Counted)
  }

  /** The invite named by the token, locked if it is still good. */
  function FindInvite(invites: seq<Invite>, token: string, from: nat): (k: nat)
    requires from <= |invites|
    ensures from <= k <= |invites| && (k < |invites| ==> Usable(invites[k], token))
    decreases |invites| - from
  {
    if from == |invites| || Usable(invites[from], token) then from else FindInvite(invites, token, from + 1)
  }

  function InviteTaken(db: Db, t: nat): Db
    requires t < |db.txns| && db.txns[t].work.RegisterWork?
  {
    var k := FindInvite(db.invites, db.txns[t].work.token, 0);
    if k == |db.invites| then End(db, t, false)
    else if db.invites[k].holder.Some? then db
    else SetStage(db.(invites := db.invites[k := db.invites[k].(holder := Some(t))]), t, Holding(k))
  }

  function LookedUp(db: Db, t: nat): Db
    requires t < |db.txns|
  {
    var name, stage := db.txns[t].work.name, db.txns[t].stage;
    if Exists(db.accounts, name) then
      if stage.Holding? then SetStage(db, t, Consuming(stage.invite, Find(db.accounts, name))) else End(db, t, false)
    else SetStage(db, t, Inserting(HeldInvite(stage)))
  }

  function OriginOf(work: Work, invite: Option<nat>): Origin {
    if work.BootstrapWork? then Bootstrapped else if invite.Some? then Invited(invite.value) else SelfRegistered
  }

  /** What a commit publishes: the account, the spent invite, or both.  A name taken meanwhile makes the insert fail. */
  function Committed(db: Db, t: nat): Db
    requires t < |db.txns|
  {
    var txn := db.txns[t];
    match txn.stage
    case Inserting(k) =>
      if Exists(db.accounts, txn.work.name) then End(db, t, false)
      else
        var invites := if k.Some? && k.value < |db.invites|
                       then db.invites[k.value := db.invites[k.value].(usedBy := Some(|db.accounts|))] else db.invites;
        End(db.(accounts := db.accounts + [Account(txn.work.name, OriginOf(txn.work, k))], invites := invites), t, true)
    case Consuming(k, a) =>
      End(if k < |db.invites| then db.(invites := db.invites[k := db.invites[k].(usedBy := Some(a))]) else db, t, true)
    case _ => End(db, t, false)
  }

  function Step(db: Db, e: Event): Db {
    match e
    case AddTestAccount(name) =>
      if Exists(db.accounts, name) then db else db.(accounts := db.accounts + [Account(name, TestAccount)])
    case CreateInvite(token) => db.(invites := db.invites + [Invite(token, None, false, false, None)])
    case ExpireInvite(k) =>
      if k < |db.invites| then db.(invites := db.invites[k := db.invites[k].(expired := true)]) else db
    case RevokeInvite(k) =>
      if k < |db.invites| && db.invites[k].holder.None? && !db.invites[k].revoked && db.invites[k].usedBy.None?
      then db.(invites := db.invites[k := db.invites[k].(revoked := true)]) else db
    case Begin(work) => db.(txns := db.txns + [Txn(work, Begun)])
    case TakeAdvisory(t) =>
      if t < |db.txns| && db.txns[t].stage == Begun && db.advisory.None?
      then SetStage(db.(advisory := Some(t)), t, Locked) else db
    case Count(t) => if t < |db.txns| && db.txns[t].stage == Locked then CountedBy(db, t) else db
    case TakeInvite(t) =>
      if t < |db.txns| && db.txns[t].stage == Counted && db.txns[t].work.RegisterWork? && db.mode == InviteOnly
      then InviteTaken(db, t) else db
    case LookUp(t) =>
      if t < |db.txns| && (db.txns[t].stage.Holding? || (db.txns[t].stage == Counted && db.mode == Open))
      then LookedUp(db, t) else db
    case Finish(t, commit) =>
      if t >= |db.txns| || db.txns[t].stage.Ended? then db
      else if commit then Committed(db, t)
      else End(db, t, false)
  }

  function After(mode: Mode, limit: nat, es: seq<Event>, i: nat): Db
    requires i <= |es| && 1 <= limit
  {
    if i == 0 then Db(mode, limit, [], [], None, []) else Step(After(mode, limit, es, i - 1), es[i - 1])
  }

  // ----- what every step keeps -----

  predicate Active(stage: Stage) {
    !stage.Begun? && !stage.Ended?
  }

  predicate TxnOk(db: Db, t: nat)
    requires t < |db.txns|
  {
    var txn := db.txns[t];
    && (Active(txn.stage) <==> db.advisory == Some(t))
    && (HeldInvite(txn.stage).Some? ==>
          var k := HeldInvite(txn.stage).value;
          && k < |db.invites| && db.invites[k].holder == Some(t) && db.invites[k].usedBy.None?
                 && !db.invites[k].revoked)
    && (txn.stage.Consuming? ==>
          txn.stage.existing < |db.accounts| && db.accounts[txn.stage.existing].name == txn.work.name)
    && (txn.stage.Holding? || txn.stage.Consuming? || txn.stage.Counted? ==> txn.work.RegisterWork?)
    && (txn.stage.Inserting? ==> (txn.stage.spending.Some? <==> txn.work.RegisterWork? && db.mode == InviteOnly))
    && (HeldInvite(txn.stage).Some? ==> db.mode == InviteOnly)
    && (Active(txn.stage) && !txn.stage.Locked? ==>
          if txn.work.BootstrapWork? then Ordinaries(db.accounts) == 0
          else 0 < Ordinaries(db.accounts) < db.limit && db.mode != Disabled)
  }

  predicate InviteOk(db: Db, k: nat)
    requires k < |db.invites|
  {
    var i := db.invites[k];
    && !(i.usedBy.Some? && i.revoked)
    && (i.usedBy.Some? ==> i.usedBy.value < |db.accounts|)
    && (i.holder.Some? ==> i.holder.value < |db.txns| && HeldInvite(db.txns[i.holder.value].stage) == Some(k))
  }

  /** The first ordinary account is the bootstrap one and no other is; an invited account spent its own invite. */
  predicate AccountOk(db: Db, a: nat)
    requires a < |db.accounts|
  {
    && (Ordinary(db.accounts[a]) ==>
          (db.accounts[a].origin == Bootstrapped <==> Ordinaries(db.accounts[..a]) == 0))
    && (db.accounts[a].origin.Invited? ==>
          var k := db.accounts[a].origin.invite;
          k < |db.invites| && db.invites[k].usedBy == Some(a) && db.mode == InviteOnly)
    && (db.accounts[a].origin == SelfRegistered ==> db.mode == Open)
  }

  predicate Inv(db: Db) {
    && 1 <= db.limit && Ordinaries(db.accounts) <= db.limit
    && (forall t :: 0 <= t < |db.txns| ==> TxnOk(db, t))
    && (forall k :: 0 <= k < |db.invites| ==> InviteOk(db, k))
    && (forall a :: 0 <= a < |db.accounts| ==> AccountOk(db, a))
    && (db.advisory.Some? ==> db.advisory.value < |db.txns|)
  }

  lemma OrdinariesAppend(accounts: seq<Account>, a: Account)
    ensures Ordinaries(accounts + [a]) == Ordinaries(accounts) + if Ordinary(a) then 1 else 0
    ensures forall k :: 0 <= k <= |accounts| ==> (accounts + [a])[..k] == accounts[..k]
  {
    assert (accounts + [a])[..|accounts|] == accounts;
  }

  /** Steps on one invite row that neither spend nor unlock it. */
  lemma MarkInv(db: Db, k: nat, i: Invite)
    requires Inv(db) && k < |db.invites| && i == db.invites[k].(revoked := i.revoked, expired := i.expired)
    requires i.revoked != db.invites[k].revoked ==> i.revoked && i.holder.None? && i.usedBy.None?
    ensures Inv(db.(invites := db.invites[k := i]))
  {
    var next := db.(invites := db.invites[k := i]);
    assert InviteOk(db, k);
    forall t | 0 <= t < |next.txns|
      ensures TxnOk(next, t)
    {
      assert TxnOk(db, t);
    }
    forall j | 0 <= j < |next.invites|
      ensures InviteOk(next, j)
    {
      assert InviteOk(db, j);
    }
    forall a | 0 <= a < |next.accounts|
      ensures AccountOk(next, a)
    {
      assert AccountOk(db, a);
    }
  }

  /** Adding a row that no transaction is looking at. */
  lemma GrowInv(db: Db, e: Event)
    requires Inv(db) && (e.CreateInvite? || e.Begin?)
    ensures Inv(Step(db, e))
  {
    var next := Step(db, e);
    forall t | 0 <= t < |next.txns|
      ensures TxnOk(next, t)
    {
      assert t < |db.txns| ==> TxnOk(db, t);
    }
    forall k | 0 <= k < |next.invites|
      ensures InviteOk(next, k)
    {
      assert k < |db.invites| ==> InviteOk(db, k);
    }
    forall a | 0 <= a < |next.accounts|
      ensures AccountOk(next, a)
    {
      assert AccountOk(db, a);
    }
  }

  lemma TestAccountInv(db: Db, name: string)
    requires Inv(db)
    ensures Inv(Step(db, AddTestAccount(name)))
  {
    hide Ordinaries;
    var next := Step(db, AddTestAccount(name));
    if next != db {
      OrdinariesAppend(db.accounts, Account(name, TestAccount));
      forall t | 0 <= t < |next.txns|
        ensures TxnOk(next, t)
      {
        assert TxnOk(db, t);
      }
      forall k | 0 <= k < |next.invites|
        ensures InviteOk(next, k)
      {
        assert InviteOk(db, k);
      }
      forall a | 0 <= a < |next.accounts|
        ensures AccountOk(next, a)
      {
        assert a < |db.accounts| ==> AccountOk(db, a);
      }
    }
  }

  /** A transaction moving on, possibly locking an invite nobody holds. */
  lemma MoveInv(db: Db, t: nat, stage: Stage, next: Db)
    requires Inv(db) && t < |db.txns| && !db.txns[t].stage.Ended? && Active(stage)
    requires next.accounts == db.accounts && next.mode == db.mode && next.limit == db.limit
    requires next.txns == db.txns[t := db.txns[t].(stage := stage)] && next.advisory == Some(t)
    requires db.advisory == Some(t) || db.advisory.None?
    requires if HeldInvite(stage) == HeldInvite(db.txns[t].stage) then next.invites == db.invites
             else && HeldInvite(stage).Some? && HeldInvite(stage).value < |db.invites|
                  && HeldInvite(db.txns[t].stage).None?
                  && var k := HeldInvite(stage).value;
                     && db.invites[k].holder.None?
                     && next.invites == db.invites[k := db.invites[k].(holder := Some(t))]
    requires TxnOk(next, t)
    ensures Inv(next)
  {
    hide Ordinaries;
    assert TxnOk(db, t);
    forall u | 0 <= u < |next.txns|
      ensures TxnOk(next, u)
    {
      assert TxnOk(db, u);
    }
    forall k | 0 <= k < |next.invites|
      ensures InviteOk(next, k)
    {
      assert InviteOk(db, k);
    }
    forall a | 0 <= a < |next.accounts|
      ensures AccountOk(next, a)
    {
      assert AccountOk(db, a);
    }
  }

  lemma EndInv(db: Db, t: nat, committed: bool)
    requires Inv(db) && t < |db.txns|
    ensures Inv(End(db, t, committed))
  {
    hide Ordinaries;
    var next := End(db, t, committed);
    assert TxnOk(db, t);
    forall u | 0 <= u < |next.txns|
      ensures TxnOk(next, u)
    {
      assert TxnOk(db, u);
    }
    forall k | 0 <= k < |next.invites|
      ensures InviteOk(next, k)
    {
      assert InviteOk(db, k);
    }
    forall a | 0 <= a < |next.accounts|
      ensures AccountOk(next, a)
    {
      assert AccountOk(db, a);
    }
  }

  lemma CountInv(db: Db, t: nat)
    requires Inv(db) && t < |db.txns| && db.txns[t].stage == Locked
    ensures Inv(CountedBy(db, t))
  {
    hide Ordinaries, End;
    assert TxnOk(db, t);
    EndInv(db, t, false);
    var next := CountedBy(db, t);
    if next != End(db, t, false) {
      MoveInv(db, t, next.txns[t].stage, next);
    }
  }

  lemma TakeInviteInv(db: Db, t: nat)
    requires Inv(db) && t < |db.txns| && db.txns[t].stage == Counted && db.txns[t].work.RegisterWork?
             && db.mode == InviteOnly
    ensures Inv(InviteTaken(db, t))
  {
    hide Ordinaries, End;
    assert TxnOk(db, t);
    EndInv(db, t, false);
    var next := InviteTaken(db, t);
    if next != End(db, t, false) && next != db {
      MoveInv(db, t, next.txns[t].stage, next);
    }
  }

  lemma LookUpInv(db: Db, t: nat)
    requires Inv(db) && t < |db.txns|
    requires db.txns[t].stage.Holding? || (db.txns[t].stage == Counted && db.mode == Open)
    ensures Inv(LookedUp(db, t))
  {
    hide Ordinaries, End, Find, Exists;
    assert TxnOk(db, t);
    EndInv(db, t, false);
    var next := LookedUp(db, t);
    if next != End(db, t, false) {
      MoveInv(db, t, next.txns[t].stage, next);
    }
  }

  /** Creating the account, spending the invite and ending are one step for everybody else. */
  lemma InsertInv(db: Db, t: nat)
    requires Inv(db) && t < |db.txns| && db.txns[t].stage.Inserting? && !Exists(db.accounts, db.txns[t].work.name)
    ensures Inv(Committed(db, t))
  {
    hide Ordinaries;
    var next, k := Committed(db, t), db.txns[t].stage.spending;
    assert TxnOk(db, t);
    OrdinariesAppend(db.accounts, Account(db.txns[t].work.name, OriginOf(db.txns[t].work, k)));
    forall u | 0 <= u < |next.txns|
      ensures TxnOk(next, u)
    {
      assert TxnOk(db, u);
    }
    forall i | 0 <= i < |next.invites|
      ensures InviteOk(next, i)
    {
      assert InviteOk(db, i);
    }
    forall a | 0 <= a < |next.accounts|
      ensures AccountOk(next, a)
    {
      assert a < |db.accounts| ==> AccountOk(db, a);
    }
  }

  lemma ConsumeInv(db: Db, t: nat)
    requires Inv(db) && t < |db.txns| && db.txns[t].stage.Consuming?
    ensures Inv(Committed(db, t))
  {
    hide Ordinaries;
    var next := Committed(db, t);
    assert TxnOk(db, t);
    forall u | 0 <= u < |next.txns|
      ensures TxnOk(next, u)
    {
      assert TxnOk(db, u);
    }
    forall i | 0 <= i < |next.invites|
      ensures InviteOk(next, i)
    {
      assert InviteOk(db, i);
    }
    forall a | 0 <= a < |next.accounts|
      ensures AccountOk(next, a)
    {
      assert AccountOk(db, a);
    }
  }

  lemma AdvisoryInv(db: Db, t: nat)
    requires Inv(db) && t < |db.txns| && db.txns[t].stage == Begun && db.advisory.None?
    ensures Inv(Step(db, TakeAdvisory(t)))
  {
    hide Ordinaries;
    MoveInv(db, t, Locked, Step(db, TakeAdvisory(t)));
  }

  lemma StepInv(db: Db, e: Event)
    requires Inv(db)
    ensures Inv(Step(db, e))
  {
    hide Inv, CountedBy, InviteTaken, LookedUp, End, Exists, Ordinaries;
    match e
    case AddTestAccount(name) => TestAccountInv(db, name);
    case CreateInvite(_) => GrowInv(db, e);
    case Begin(_) => GrowInv(db, e);
    case ExpireInvite(k) =>
      if k < |db.invites| {
        MarkInv(db, k, db.invites[k].(expired := true));
      }
    case RevokeInvite(k) =>
      if k < |db.invites| && db.invites[k].holder.None? && db.invites[k].usedBy.None? {
        MarkInv(db, k, db.invites[k].(revoked := true));
      }
    case TakeAdvisory(t) =>
      if t < |db.txns| && db.txns[t].stage == Begun && db.advisory.None? {
        AdvisoryInv(db, t);
      }
    case Count(t) =>
      if t < |db.txns| && db.txns[t].stage == Locked {
        CountInv(db, t);
      }
    case TakeInvite(t) =>
      if t < |db.txns| && db.txns[t].stage == Counted && db.txns[t].work.RegisterWork? && db.mode == InviteOnly {
        TakeInviteInv(db, t);
      }
    case LookUp(t) =>
      if t < |db.txns| && (db.txns[t].stage.Holding? || (db.txns[t].stage == Counted && db.mode == Open)) {
        LookUpInv(db, t);
      }
    case Finish(t, commit) =>
      if t < |db.txns| {
        EndInv(db, t, false);
        if db.txns[t].stage.Inserting? && !Exists(db.accounts, db.txns[t].work.name) {
          InsertInv(db, t);
        } else if db.txns[t].stage.Consuming? {
          ConsumeInv(db, t);
        }
      }
  }

  /** Accounts stay, a spent invite stays spent on the same account, a revoked one stays revoked. */
  predicate Later(db: Db, next: Db) {
    && db.accounts <= next.accounts && |db.invites| <= |next.invites| && next.mode == db.mode && next.limit == db.limit
    && (forall k :: 0 <= k < |db.invites| ==>
          && (db.invites[k].usedBy.Some? ==> next.invites[k].usedBy == db.invites[k].usedBy)
          && (db.invites[k].revoked ==> next.invites[k].revoked))
  }

  lemma StepLater(db: Db, e: Event)
    requires Inv(db)
    ensures Later(db, Step(db, e))
  {
    hide Ordinaries, Exists, Find, Inv, Committed;
    if e.Finish? && e.txn < |db.txns| {
      TxnOf(db, e.txn);
      CommitLater(db, e.txn);
    }
  }

  lemma TxnOf(db: Db, t: nat)
    requires Inv(db) && t < |db.txns|
    ensures TxnOk(db, t)
  {
  }

  lemma AccountOf(db: Db, a: nat)
    requires Inv(db) && a < |db.accounts|
    ensures AccountOk(db, a)
  {
  }

  /** A commit touches at most the invite it holds, which was not spent before. */
  lemma CommitLater(db: Db, t: nat)
    requires t < |db.txns| && TxnOk(db, t)
    ensures Later(db, Committed(db, t)) && |Committed(db, t).invites| == |db.invites|
    ensures db.txns[t].stage.Consuming? ==>
              Committed(db, t).invites[db.txns[t].stage.invite].usedBy == Some(db.txns[t].stage.existing)
    ensures var next, held := Committed(db, t), HeldInvite(db.txns[t].stage);
            forall k :: 0 <= k < |db.invites| && next.invites[k].usedBy != db.invites[k].usedBy ==>
              && held == Some(k)
              && match db.txns[t].stage
                 case Consuming(_, a) => next.invites[k].usedBy == Some(a)
                 case Inserting(_) => next.invites[k].usedBy == Some(|db.accounts|)
                                      && next.accounts == db.accounts + [Account(db.txns[t].work.name, Invited(k))]
                 case _ => false
  {
    hide Ordinaries, Exists;
  }

  lemma {:induction false} RunInv(mode: Mode, limit: nat, es: seq<Event>, i: nat, j: nat)
    requires i <= j <= |es| && 1 <= limit
    ensures Inv(After(mode, limit, es, i)) && Inv(After(mode, limit, es, j))
    ensures Later(After(mode, limit, es, i), After(mode, limit, es, j))
    ensures After(mode, limit, es, j).mode == mode && After(mode, limit, es, j).limit == limit
    decreases j
  {
    hide Step, Inv;
    if j == 0 {
      StartInv(mode, limit);
    } else {
      RunInv(mode, limit, es, if i < j then i else j - 1, j - 1);
      StepInv(After(mode, limit, es, j - 1), es[j - 1]);
      StepLater(After(mode, limit, es, j - 1), es[j - 1]);
    }
  }

  lemma StartInv(mode: Mode, limit: nat)
    requires 1 <= limit
    ensures Inv(Db(mode, limit, [], [], None, []))
  {
  }

  lemma {:induction false} SomeOrdinary(accounts: seq<Account>)
    requires Ordinaries(accounts) > 0
    ensures exists a :: 0 <= a < |accounts| && Ordinary(accounts[a]) && Ordinaries(accounts[..a]) == 0
  {
    var n := |accounts| - 1;
    if Ordinaries(accounts[..n]) > 0 {
      SomeOrdinary(accounts[..n]);
      var a :| 0 <= a < n && Ordinary(accounts[..n][a]) && Ordinaries(accounts[..n][..a]) == 0;
      assert accounts[..n][..a] == accounts[..a];
    } else {
      assert Ordinary(accounts[n]);
    }
  }

  lemma {:induction false} MonotoneOrdinaries(accounts: seq<Account>, a: nat, b: nat)
    requires a <= b <= |accounts|
    ensures Ordinaries(accounts[..a]) <= Ordinaries(accounts[..b])
    ensures a < b && Ordinary(accounts[a]) ==> Ordinaries(accounts[..b]) > 0
  {
    if a < b {
      MonotoneOrdinaries(accounts, a, b - 1);
      assert accounts[..b][..b - 1] == accounts[..b - 1];
    }
  }

  /** In every interleaving: at most one bootstrap account, it precedes every other ordinary account, ordinary
      registration never makes the first one, and the number of ordinary accounts stays within the configured limit. */
  lemma BootstrapIsFirstAndOnly(mode: Mode, limit: nat, es: seq<Event>, i: nat)
    requires i <= |es| && 1 <= limit
    ensures var accounts := After(mode, limit, es, i).accounts;
            && Ordinaries(accounts) <= limit
            && (forall b :: 0 <= b < |accounts| && Ordinary(accounts[b]) ==> FollowsBootstrap(accounts, b))
  {
    RunInv(mode, limit, es, i, i);
    var db := After(mode, limit, es, i);
    forall b | 0 <= b < |db.accounts| && Ordinary(db.accounts[b])
      ensures FollowsBootstrap(db.accounts, b)
    {
      assert AccountOk(db, b);
      if db.accounts[b].origin != Bootstrapped {
        SomeOrdinary(db.accounts[..b]);
        var a :| 0 <= a < b && Ordinary(db.accounts[..b][a]) && Ordinaries(db.accounts[..b][..a]) == 0;
        assert db.accounts[..b][..a] == db.accounts[..a];
        assert AccountOk(db, a);
      }
    }
  }

  /** The account is the bootstrap one or comes after it. */
  predicate FollowsBootstrap(accounts: seq<Account>, b: nat)
    requires b < |accounts|
  {
    exists a :: 0 <= a <= b && accounts[a].origin == Bootstrapped && (a == b <==> accounts[b].origin == Bootstrapped)
  }

  lemma OneBootstrap(mode: Mode, limit: nat, es: seq<Event>, i: nat, a: nat, b: nat)
    requires i <= |es| && 1 <= limit && a < b < |After(mode, limit, es, i).accounts|
    ensures var accounts := After(mode, limit, es, i).accounts;
            !(accounts[a].origin == Bootstrapped && accounts[b].origin == Bootstrapped)
  {
    RunInv(mode, limit, es, i, i);
    var db := After(mode, limit, es, i);
    assert AccountOk(db, a) && AccountOk(db, b);
    MonotoneOrdinaries(db.accounts, a, b);
  }

  /** In every interleaving an invite is spent at most once and never both spent and revoked, and each of these is
      final. */
  lemma InviteSpentOnce(mode: Mode, limit: nat, es: seq<Event>, i: nat, j: nat, k: nat)
    requires i <= j <= |es| && 1 <= limit && k < |After(mode, limit, es, i).invites|
    ensures var now, later := After(mode, limit, es, i), After(mode, limit, es, j);
            && k < |later.invites|
            && (now.invites[k].usedBy.Some? ==>
                later.invites[k].usedBy == now.invites[k].usedBy && !later.invites[k].revoked)
            && (now.invites[k].revoked ==> later.invites[k].revoked && later.invites[k].usedBy.None?)
  {
    RunInv(mode, limit, es, i, j);
    assert InviteOk(After(mode, limit, es, j), k);
  }

  /** In every interleaving with invites required, each ordinary account but the bootstrap one spent an invite of its
      own. */
  lemma EachPaysItsOwn(limit: nat, es: seq<Event>, i: nat, a: nat)
    requires i <= |es| && 1 <= limit && a < |After(InviteOnly, limit, es, i).accounts|
    ensures var db := After(InviteOnly, limit, es, i);
            Ordinary(db.accounts[a]) && db.accounts[a].origin != Bootstrapped ==>
            && db.accounts[a].origin.Invited?
            && var k := db.accounts[a].origin.invite;
               && k < |db.invites| && db.invites[k].usedBy == Some(a)
               && (forall b :: 0 <= b < |db.accounts| && b != a ==> db.accounts[b].origin != Invited(k))
  {
    RunInv(InviteOnly, limit, es, i, i);
    var db := After(InviteOnly, limit, es, i);
    assert AccountOk(db, a);
    forall b | 0 <= b < |db.accounts| && b != a && db.accounts[b].origin.Invited?
      ensures db.accounts[b].origin != db.accounts[a].origin
    {
      assert AccountOk(db, b);
    }
  }

  // ----- which account an invite is recorded against -----

  /** The step that spends `k` on account `a` without creating it: a registration committed after its lookup had found
      the name taken by `a`. */
  predicate SpentOnTaken(mode: Mode, limit: nat, es: seq<Event>, j: nat, k: nat, a: nat)
    requires 1 <= limit
  {
    && j < |es| && es[j].Finish? && es[j].commit
    && var db := After(mode, limit, es, j);
       && es[j].txn < |db.txns| && db.txns[es[j].txn].stage == Consuming(k, a)
       && a < |db.accounts| && db.accounts[a].name == db.txns[es[j].txn].work.name
  }

  lemma StepSpends(db: Db, e: Event, k: nat)
    requires Inv(db) && Later(db, Step(db, e)) && k < |Step(db, e).invites|
    requires k < |db.invites| ==> db.invites[k].usedBy.None?
    requires Step(db, e).invites[k].usedBy.Some?
    ensures k < |db.invites| && e.Finish? && e.commit && e.txn < |db.txns|
    ensures var next, stage := Step(db, e), db.txns[e.txn].stage;
            var a := next.invites[k].usedBy.value;
            || stage == Consuming(k, a)
            || (stage == Inserting(Some(k)) && a == |db.accounts| < |next.accounts|
                && next.accounts[a].origin == Invited(k))
  {
    hide Ordinaries, Exists, Find, Later, Committed, Inv;
    if e.Finish? && e.txn < |db.txns| {
      TxnOf(db, e.txn);
      CommitLater(db, e.txn);
    }
  }

  /** Such a commit spends the invite it holds, which was not spent before. */
  lemma TakenCommit(db: Db, e: Event, k: nat, a: nat)
    requires Inv(db) && e.Finish? && e.commit && e.txn < |db.txns| && db.txns[e.txn].stage == Consuming(k, a)
    ensures k < |db.invites| && db.invites[k].usedBy.None?
    ensures k < |Step(db, e).invites| && Step(db, e).invites[k].usedBy == Some(a)
  {
    hide Inv, Committed, AccountOk, Ordinaries, Exists, Find, Later;
    TxnOf(db, e.txn);
    CommitLater(db, e.txn);
  }

  lemma TakenSpends(mode: Mode, limit: nat, es: seq<Event>, j: nat, i: nat, k: nat, a: nat)
    requires j < i <= |es| && 1 <= limit && SpentOnTaken(mode, limit, es, j, k, a)
    ensures var db, next := After(mode, limit, es, j), After(mode, limit, es, i);
            && k < |db.invites| && db.invites[k].usedBy.None?
            && k < |next.invites| && next.invites[k].usedBy == Some(a)
  {
    hide Inv, Step;
    RunInv(mode, limit, es, j, j + 1);
    RunInv(mode, limit, es, j + 1, i);
    TakenCommit(After(mode, limit, es, j), es[j], k, a);
  }

  /** In every interleaving an invite is recorded against the account it created, except exactly when some registration
      that spent it had asked for a name already taken: then against the account that has the name. */
  lemma {:induction false} OwnInviteUnlessNameTaken(mode: Mode, limit: nat, es: seq<Event>, i: nat, k: nat)
    requires i <= |es| && 1 <= limit && k < |After(mode, limit, es, i).invites|
    requires After(mode, limit, es, i).invites[k].usedBy.Some?
    ensures var db := After(mode, limit, es, i);
            var a := db.invites[k].usedBy.value;
            && a < |db.accounts|
            && (db.accounts[a].origin != Invited(k) <==>
                exists j: nat :: j < i && SpentOnTaken(mode, limit, es, j, k, a))
    decreases i
  {
    hide Inv, Step, SpentOnTaken, TxnOk, AccountOk;
    if i > 0 {
      var db, next := After(mode, limit, es, i - 1), After(mode, limit, es, i);
      var a := next.invites[k].usedBy.value;
      RunInv(mode, limit, es, i - 1, i);
      if k < |db.invites| && db.invites[k].usedBy.Some? {
        OwnInviteUnlessNameTaken(mode, limit, es, i - 1, k);
        if SpentOnTaken(mode, limit, es, i - 1, k, a) {
          TakenSpends(mode, limit, es, i - 1, i, k, a);
          assert false;
        }
      } else {
        forall j: nat | j < i - 1
          ensures !SpentOnTaken(mode, limit, es, j, k, a)
        {
          if SpentOnTaken(mode, limit, es, j, k, a) {
            TakenSpends(mode, limit, es, j, i - 1, k, a);
          }
        }
        LastSpend(mode, limit, es, i, k);
      }
    }
  }

  lemma LastSpend(mode: Mode, limit: nat, es: seq<Event>, i: nat, k: nat)
    requires 0 < i <= |es| && 1 <= limit && k < |After(mode, limit, es, i).invites|
    requires k < |After(mode, limit, es, i - 1).invites| ==> After(mode, limit, es, i - 1).invites[k].usedBy.None?
    requires After(mode, limit, es, i).invites[k].usedBy.Some?
    ensures var db := After(mode, limit, es, i);
            var a := db.invites[k].usedBy.value;
            && a < |db.accounts|
            && (db.accounts[a].origin != Invited(k) <==> SpentOnTaken(mode, limit, es, i - 1, k, a))
  {
    hide Inv, Step, InviteOk;
    var db, e := After(mode, limit, es, i - 1), es[i - 1];
    RunInv(mode, limit, es, i - 1, i);
    StepSpends(db, e, k);
    TxnOf(db, e.txn);
    var a := After(mode, limit, es, i).invites[k].usedBy.value;
    if a < |db.accounts| {
      AccountOf(db, a);
    }
  }

  /** A registration that nobody comes between, up to its count and then to its commit. */
  function CountedAlone(db: Db, work: Work): Db {
    var t := |db.txns|;
    Step(Step(Step(db, Begin(work)), TakeAdvisory(t)), Count(t))
  }

  function RegisteredAlone(db: Db, work: Work): Db {
    var t := |db.txns|;
    Step(Step(Step(CountedAlone(db, work), TakeInvite(t)), LookUp(t)), Finish(t, true))
  }

  /** Room for one more, and an invite that the token finds and nobody holds. */
  predicate Welcome(db: Db, token: string) {
    && db.mode == InviteOnly && db.advisory.None? && 0 < Ordinaries(db.accounts) < db.limit
    && var k := FindInvite(db.invites, token, 0);
       k < |db.invites| && db.invites[k].holder.None?
  }

  function SpentOn(db: Db, k: nat, a: nat, work: Work): Db
    requires k < |db.invites|
  {
    db.(invites := db.invites[k := db.invites[k].(usedBy := Some(a))], txns := db.txns + [Txn(work, Ended(true))])
  }

  lemma CountsAlone(db: Db, work: Work)
    requires work.RegisterWork? && Welcome(db, work.token)
    ensures CountedAlone(db, work) == db.(advisory := Some(|db.txns|), txns := db.txns + [Txn(work, Counted)])
  {
    hide Ordinaries, Exists, FindInvite;
    var t := |db.txns|;
    var begun := Step(db, Begin(work));
    var locked := Step(begun, TakeAdvisory(t));
    assert locked == db.(advisory := Some(t), txns := db.txns + [Txn(work, Locked)]);
  }

  /** Undisturbed, a good invite pays for a new account under a free name, and otherwise is spent on whoever has the
      name. */
  lemma RegistersAlone(db: Db, work: Work)
    requires work.RegisterWork? && Welcome(db, work.token)
    ensures var k := FindInvite(db.invites, work.token, 0);
            RegisteredAlone(db, work) ==
            if Exists(db.accounts, work.name) then SpentOn(db, k, Find(db.accounts, work.name), work)
            else SpentOn(db, k, |db.accounts|, work).(accounts := db.accounts + [Account(work.name, Invited(k))])
  {
    hide Ordinaries, Exists, FindInvite, Find, CountedAlone;
    CountsAlone(db, work);
    var t, k := |db.txns|, FindInvite(db.invites, work.token, 0);
    var holding := Step(CountedAlone(db, work), TakeInvite(t));
    var held := db.invites[k := db.invites[k].(holder := Some(t))];
    assert holding == db.(invites := held, advisory := Some(t), txns := db.txns + [Txn(work, Holding(k))]);
    FinishesAlone(db, work, k, holding);
  }

  lemma FinishesAlone(db: Db, work: Work, k: nat, holding: Db)
    requires work.RegisterWork? && k < |db.invites| && db.invites[k].holder.None? && db.advisory.None?
    requires holding == db.(invites := db.invites[k := db.invites[k].(holder := Some(|db.txns|))],
                            advisory := Some(|db.txns|), txns := db.txns + [Txn(work, Holding(k))])
    ensures Step(Step(holding, LookUp(|db.txns|)), Finish(|db.txns|, true)) ==
            if Exists(db.accounts, work.name) then SpentOn(db, k, Find(db.accounts, work.name), work)
            else SpentOn(db, k, |db.accounts|, work).(accounts := db.accounts + [Account(work.name, Invited(k))])
  {
    hide Ordinaries, Exists, Find;
    var t := |db.txns|;
    var stage := if Exists(db.accounts, work.name) then Consuming(k, Find(db.accounts, work.name))
                 else Inserting(Some(k));
    var found := Step(holding, LookUp(t));
    assert found == holding.(txns := db.txns + [Txn(work, stage)]);
    assert Step(found, Finish(t, true)) == Committed(found, t);
  }

  const ROOT := Account("root", Bootstrapped)
  const BOB := Account("bob", Invited(0))
  const FIRST := Txn(BootstrapWork("root"), Ended(true))
  const ONE := Invite("x", None, false, false, None)
  const TWO := Invite("yy", None, false, false, None)

  lemma TwoAccounts()
    ensures Ordinaries([]) == 0 && Ordinaries([ROOT]) == 1 && Ordinaries([ROOT, BOB]) == 2
    ensures Exists([ROOT, BOB], "bob") && !Exists([ROOT], "bob") && !Exists([], "root") && Find([ROOT, BOB], "bob") == 1
  {
    assert [ROOT][..0] == [] && [ROOT, BOB][..1] == [ROOT];
    assert [ROOT, BOB][1].name == "bob";
    assert |"root"| != |"bob"|;
  }

  function BootstrappedAlone(db: Db, name: string): Db {
    var t := |db.txns|;
    Step(Step(Step(Step(db, Begin(BootstrapWork(name))), TakeAdvisory(t)), Count(t)), Finish(t, true))
  }

  /** A system with invites required, bootstrapped and with two invites out. */
  function Ready(): Db {
    Step(Step(BootstrappedAlone(Db(InviteOnly, 10, [], [], None, []), "root"), CreateInvite("x")), CreateInvite("yy"))
  }

  lemma ReadyIs()
    ensures Ready() == Db(InviteOnly, 10, [ROOT], [ONE, TWO], None, [FIRST])
  {
    hide Ordinaries, Exists;
    TwoAccounts();
    var locked := Step(Step(Db(InviteOnly, 10, [], [], None, []), Begin(BootstrapWork("root"))), TakeAdvisory(0));
    assert locked == Db(InviteOnly, 10, [], [], Some(0), [Txn(BootstrapWork("root"), Locked)]);
    assert Step(locked, Count(0)) == Db(InviteOnly, 10, [], [], Some(0), [Txn(BootstrapWork("root"), Inserting(None))]);
  }

  /** A run after which one account has two invites recorded against it: its name was asked for a second time. */
  lemma NameTwiceSpendsTwo()
    ensures var once := RegisteredAlone(Ready(), RegisterWork("bob", "x"));
            var twice := RegisteredAlone(once, RegisterWork("bob", "yy"));
            && |twice.accounts| == |twice.invites| == 2 && twice.accounts[1].origin == Invited(0)
            && twice.invites[0].usedBy == Some(1) && twice.invites[1].usedBy == Some(1)
  {
    hide Ordinaries, Exists, Find, Step;
    ReadyIs();
    TwoAccounts();
    RegistersAlone(Ready(), RegisterWork("bob", "x"));
    var once := RegisteredAlone(Ready(), RegisterWork("bob", "x"));
    assert once.accounts == [ROOT, BOB] && once.invites == [ONE.(usedBy := Some(1)), TWO];
    assert FindInvite(once.invites, "yy", 1) == 1;
    RegistersAlone(once, RegisterWork("bob", "yy"));
  }

  // ----- the handlers' transactions over mutable tables -----

  class Tables {
    const mode: Mode
    const limit: nat
    var accounts: seq<Account>
    var invites: seq<Invite>
    var advisory: Option<nat>
    var txns: seq<Txn>

    function View(): Db
      reads this
    {
      Db(mode, limit, accounts, invites, advisory, txns)
    }

    constructor (mode: Mode, limit: nat)
      requires 1 <= limit <= 1000000
      ensures Inv(View()) && accounts == [] && invites == []
    {
      this.mode, this.limit := mode, limit;
      accounts, invites, advisory, txns := [], [], None, [];
    }

    method Rollback(t: nat)
      requires Inv(View()) && t < |txns|
      modifies this
      ensures Inv(View()) && View() == End(old(View()), t, false) && accounts == old(accounts)
    {
      hide Inv;
      EndInv(View(), t, false);
      var k := HeldInvite(txns[t].stage);
      if k.Some? && k.value < |invites| {
        invites := invites[k.value := invites[k.value].(holder := None)];
      }
      if advisory == Some(t) {
        advisory := None;
      }
      txns := txns[t := txns[t].(stage := Ended(false))];
    }

    /** The count under the advisory lock decides whether the registration goes on. */
    method CountAccounts(t: nat) returns (goesOn: bool)
      requires Inv(View()) && t < |txns| && txns[t].stage == Locked
      modifies this
      ensures Inv(View()) && View() == Step(old(View()), Count(t)) && accounts == old(accounts)
      ensures goesOn <==> if old(txns[t].work.BootstrapWork?) then Ordinaries(accounts) == 0
                          else 0 < Ordinaries(accounts) < limit && mode != Disabled
    {
      hide Inv, End;
      StepInv(View(), Count(t));
      var total := 0;
      for a := 0 to |accounts|
        invariant total == Ordinaries(accounts[..a])
      {
        assert accounts[..a + 1][..a] == accounts[..a];
        if accounts[a].origin != TestAccount {
          total := total + 1;
        }
      }
      assert accounts[..|accounts|] == accounts;
      if txns[t].work.BootstrapWork? {
        goesOn := total == 0;
        if goesOn {
          txns := txns[t := txns[t].(stage := Inserting(None))];
        } else {
          Rollback(t);
        }
      } else {
        goesOn := total != 0 && mode != Disabled && total < limit;
        if goesOn {
          txns := txns[t := txns[t].(stage := Counted)];
        } else {
          Rollback(t);
        }
      }
    }

    /** UPDATE ... SET revoked_at WHERE revoked_at IS NULL AND used_at IS NULL; a held row has to wait. */
    method Revoke(k: nat) returns (revoked: bool)
      requires Inv(View())
      modifies this`invites
      ensures Inv(View()) && View() == Step(old(View()), RevokeInvite(k))
      ensures revoked ==> k < |invites| && invites[k].revoked && invites[k].usedBy.None?
    {
      hide Inv;
      StepInv(View(), RevokeInvite(k));
      revoked := k < |invites| && invites[k].holder.None? && !invites[k].revoked && invites[k].usedBy.None?;
      if revoked {
        invites := invites[k := invites[k].(revoked := true)];
      }
    }

    method Commit(t: nat)
      requires Inv(View()) && t < |txns| && !txns[t].stage.Ended?
      modifies this
      ensures Inv(View()) && View() == Step(old(View()), Finish(t, true)) && old(accounts) <= accounts
    {
      hide Inv, Exists;
      StepInv(View(), Finish(t, true));
      var txn := txns[t];
      var good := false;
      if txn.stage.Inserting? && !Exists(accounts, txn.work.name) {
        var k := txn.stage.spending;
        if k.Some? && k.value < |invites| {
          invites := invites[k.value := invites[k.value].(usedBy := Some(|accounts|))];
        }
        accounts := accounts + [Account(txn.work.name, OriginOf(txn.work, k))];
        good := true;
      } else if txn.stage.Consuming? {
        if txn.stage.invite < |invites| {
          invites := invites[txn.stage.invite := invites[txn.stage.invite].(usedBy := Some(txn.stage.existing))];
        }
        good := true;
      }
      var k := HeldInvite(txn.stage);
      if k.Some? && k.value < |invites| {
        invites := invites[k.value := invites[k.value].(holder := None)];
      }
      if advisory == Some(t) {
        advisory := None;
      }
      txns := txns[t := txn.(stage := Ended(good))];
    }
  }
}
