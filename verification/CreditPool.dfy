/** The two-level credit allocator (ownership.cpp: CreditState, HttpLeaseState, ExtraMemoryCharge, AdmissionLease,
    CreditPool).  Eight tasks, four per package, and byte budgets.  A lease is shared by its handle and by every memory
    charge taken through it, wherever the charge has been moved; its credits return when the last of them is gone. */
module CreditPool {
  import opened Wrappers
  import Context

  const PACKAGE_TASKS: int := 4
  const FEATURE_TASKS: int := 8
  const EXTRA_BYTES_PER_LEASE: int := 96 * 1024 * 1024
  const OWNER_BOOKKEEPING_BYTES: int := 4096
  const PACKAGE_TRANSPORT_BYTES: int := 256 * 1024 * 1024
  const FEATURE_TRANSPORT_BYTES: int := 512 * 1024 * 1024
  /** sizeof(ExtraMemoryCharge): a shared pointer and a count. */
  const OVERHEAD: int := 24

  datatype Package = Package(name: string, tasks: int, transport: int)

  /** `refs` is the shared-pointer count of the lease state: its handle, the charges on it, and `loose` references of
      calls past their lock section; `admitted` is whether its credits are still taken. */
  datatype Lease = Lease(
    name: string,
    slot: int,
    transport: int,
    extra: int,
    handle: bool,
    loose: int,
    refs: int,
    admitted: bool)

  /** A charge object; a moved-from or released one refers to no lease. */
  datatype Charge = Charge(lease: Option<nat>, bytes: int)

  datatype Pool = Pool(
    accepting: bool,
    tasks: int,
    transport: int,
    extra: int,
    packages: seq<Package>,
    leases: seq<Lease>,
    charges: seq<Charge>)

  /** Releasing a charge is three steps with other threads in between: the bytes go back under the lock, the reference
      is dropped after it, and the destructor of the last one takes the lock again. */
  datatype Event =
    | TryAcquire(name: string, transport: nat, process: bool)
    | ReserveExtra(lease: nat, payload: nat)
    | MoveCharge(charge: nat)
    | AssignCharge(target: nat, source: nat)
    | ReleaseCharge(charge: nat)
    | DropHandle(lease: nat)
    | DropReference(lease: nat)
    | DestroyLease(lease: nat)
    | CloseAdmission

  const EMPTY_PACKAGE := Package("", 0, 0)
  const GONE := Charge(None, 0)

  // ----- the operations -----

  /** The slot search: the package's own live slot, else the first free slot, else one past the end. */
  function Find(packages: seq<Package>, name: string, index: nat, slot: nat): nat
    requires index <= |packages|
    decreases |packages| - index
  {
    if index == |packages| then slot
    else if packages[index].tasks != 0 && packages[index].name == name then index
    else Find(packages, name, index + 1, if packages[index].tasks == 0 && slot == |packages| then index else slot)
  }

  function Admit(p: Pool, name: string, transport: nat, slot: nat): Pool
    requires slot < |p.packages|
  {
    var package := p.packages[slot];
    p.(tasks := p.tasks + 1, transport := p.transport + transport, extra := p.extra + EXTRA_BYTES_PER_LEASE,
       packages := p.packages[slot := Package(if package.tasks == 0 then name else package.name,
                                              package.tasks + 1, package.transport + transport)],
       leases := p.leases + [Lease(name, slot, transport, OWNER_BOOKKEEPING_BYTES, true, 0, 1, true)])
  }

  function Acquire(p: Pool, name: string, transport: nat, process: bool): Pool {
    if !process || !Context.ValidName(name) || transport > PACKAGE_TRANSPORT_BYTES then p
    else if !p.accepting || p.tasks == FEATURE_TASKS || transport > FEATURE_TRANSPORT_BYTES - p.transport then p
    else
      var slot := Find(p.packages, name, 0, |p.packages|);
      if slot >= |p.packages| then p
      else if p.packages[slot].tasks == PACKAGE_TASKS then p
      else if transport > PACKAGE_TRANSPORT_BYTES - p.packages[slot].transport then p
      else Admit(p, name, transport, slot)
  }

  /** The lease state's destructor. */
  function Destroy(p: Pool, id: nat): Pool
    requires id < |p.leases|
  {
    var lease := p.leases[id];
    if !lease.admitted || !(0 <= lease.slot < |p.packages|) then p
    else
      var package := p.packages[lease.slot];
      var name := if package.tasks - 1 == 0 then "" else package.name;
      p.(tasks := p.tasks - 1, transport := p.transport - lease.transport, extra := p.extra - EXTRA_BYTES_PER_LEASE,
         packages := p.packages[lease.slot := Package(name, package.tasks - 1, package.transport - lease.transport)],
         leases := p.leases[id := lease.(admitted := false)])
  }

  /** A call ends and drops the reference it kept. */
  function Unref(p: Pool, id: nat): Pool
    requires id < |p.leases|
  {
    var lease := p.leases[id];
    if lease.loose <= 0 then p
    else p.(leases := p.leases[id := lease.(loose := lease.loose - 1, refs := lease.refs - 1)])
  }

  /** The lock section of `release`. */
  function Release(p: Pool, c: nat): Pool
    requires c < |p.charges|
  {
    var charge := p.charges[c];
    if charge.lease.None? || charge.lease.value >= |p.leases| then p
    else
      var id := charge.lease.value;
      var lease := p.leases[id];
      p.(leases := p.leases[id := lease.(extra := lease.extra - charge.bytes, loose := lease.loose + 1)],
         charges := p.charges[c := GONE])
  }

  function Reserve(p: Pool, id: nat, payload: nat): Pool
    requires id < |p.leases|
  {
    var lease := p.leases[id];
    if payload == 0 || payload > EXTRA_BYTES_PER_LEASE - OVERHEAD then p
    else
      var bytes := payload + OVERHEAD;
      if bytes > EXTRA_BYTES_PER_LEASE - lease.extra then p
      else p.(leases := p.leases[id := lease.(extra := lease.extra + bytes, refs := lease.refs + 1)],
              charges := p.charges + [Charge(Some(id), bytes)])
  }

  function Step(p: Pool, e: Event): Pool {
    match e
    case TryAcquire(name, transport, process) => Acquire(p, name, transport, process)
    case ReserveExtra(id, payload) => if id < |p.leases| && p.leases[id].handle then Reserve(p, id, payload) else p
    case MoveCharge(c) =>
      if c < |p.charges| then p.(charges := p.charges[c := GONE] + [p.charges[c]]) else p
    case AssignCharge(t, s) =>
      if t < |p.charges| && s < |p.charges| && t != s
      then var q := Release(p, t); q.(charges := p.charges[t := p.charges[s]][s := GONE])
      else p
    case ReleaseCharge(c) => if c < |p.charges| then Release(p, c) else p
    case DropHandle(id) =>
      if id < |p.leases| && p.leases[id].handle
      then p.(leases := p.leases[id := p.leases[id].(handle := false, refs := p.leases[id].refs - 1)]) else p
    case DropReference(id) => if id < |p.leases| then Unref(p, id) else p
    case DestroyLease(id) => if id < |p.leases| && p.leases[id].refs == 0 then Destroy(p, id) else p
    case CloseAdmission => p.(accepting := false)
  }

  // ----- sums over the leases and charges -----

  predicate Within(lease: Lease, lo: int, hi: int) {
    lease.admitted && lo <= lease.slot < hi
  }

  /** Live leases whose slot lies in [lo, hi). */
  function Tasks(leases: seq<Lease>, lo: int, hi: int): int {
    if leases == [] then 0
    else Tasks(leases[..|leases| - 1], lo, hi) + if Within(leases[|leases| - 1], lo, hi) then 1 else 0
  }

  function Transport(leases: seq<Lease>, lo: int, hi: int): int {
    if leases == [] then 0
    else Transport(leases[..|leases| - 1], lo, hi)
         + if Within(leases[|leases| - 1], lo, hi) then leases[|leases| - 1].transport else 0
  }

  /** The same by package name: the abstract budgets. */
  function NamedTasks(leases: seq<Lease>, name: string): int {
    if leases == [] then 0
    else NamedTasks(leases[..|leases| - 1], name)
         + if leases[|leases| - 1].admitted && leases[|leases| - 1].name == name then 1 else 0
  }

  function NamedTransport(leases: seq<Lease>, name: string): int {
    if leases == [] then 0
    else NamedTransport(leases[..|leases| - 1], name)
         + if leases[|leases| - 1].admitted && leases[|leases| - 1].name == name then leases[|leases| - 1].transport
           else 0
  }

  /** Charges held on a lease, and their bytes. */
  function Held(charges: seq<Charge>, id: nat): int {
    if charges == [] then 0
    else Held(charges[..|charges| - 1], id) + if charges[|charges| - 1].lease == Some(id) then 1 else 0
  }

  function HeldBytes(charges: seq<Charge>, id: nat): int {
    if charges == [] then 0
    else HeldBytes(charges[..|charges| - 1], id)
         + if charges[|charges| - 1].lease == Some(id) then charges[|charges| - 1].bytes else 0
  }

  lemma {:induction false} TasksUpdate(leases: seq<Lease>, i: nat, l: Lease, lo: int, hi: int)
    requires i < |leases|
    ensures Tasks(leases[i := l], lo, hi)
         == Tasks(leases, lo, hi) + (if Within(l, lo, hi) then 1 else 0) - (if Within(leases[i], lo, hi) then 1 else 0)
    ensures Transport(leases[i := l], lo, hi)
         == Transport(leases, lo, hi) + (if Within(l, lo, hi) then l.transport else 0)
            - (if Within(leases[i], lo, hi) then leases[i].transport else 0)
  {
    var n := |leases| - 1;
    if i == n {
      assert leases[i := l][..n] == leases[..n];
    } else {
      TasksUpdate(leases[..n], i, l, lo, hi);
      assert leases[i := l][..n] == leases[..n][i := l];
    }
  }

  lemma {:induction false} HeldUpdate(charges: seq<Charge>, i: nat, c: Charge, id: nat)
    requires i < |charges|
    ensures Held(charges[i := c], id)
         == Held(charges, id) + (if c.lease == Some(id) then 1 else 0) - (if charges[i].lease == Some(id) then 1 else 0)
    ensures HeldBytes(charges[i := c], id)
         == HeldBytes(charges, id) + (if c.lease == Some(id) then c.bytes else 0)
            - (if charges[i].lease == Some(id) then charges[i].bytes else 0)
  {
    var n := |charges| - 1;
    if i == n {
      assert charges[i := c][..n] == charges[..n];
    } else {
      HeldUpdate(charges[..n], i, c, id);
      assert charges[i := c][..n] == charges[..n][i := c];
    }
  }

  lemma {:induction false} SplitSlots(leases: seq<Lease>, lo: int, mid: int, hi: int)
    requires lo <= mid <= hi
    ensures Tasks(leases, lo, hi) == Tasks(leases, lo, mid) + Tasks(leases, mid, hi)
  {
    if leases != [] {
      SplitSlots(leases[..|leases| - 1], lo, mid, hi);
    }
  }

  lemma {:induction false} NonNegative(leases: seq<Lease>, lo: int, hi: int)
    requires forall i :: 0 <= i < |leases| ==> leases[i].transport >= 0
    ensures Tasks(leases, lo, hi) >= 0 && Transport(leases, lo, hi) >= 0
    ensures Tasks(leases, lo, hi) == 0 ==> Transport(leases, lo, hi) == 0
    ensures (exists i :: 0 <= i < |leases| && Within(leases[i], lo, hi)) <==> Tasks(leases, lo, hi) > 0
  {
    if leases != [] {
      var rest := leases[..|leases| - 1];
      NonNegative(rest, lo, hi);
      if i :| 0 <= i < |leases| && Within(leases[i], lo, hi) {
        assert i < |leases| - 1 ==> Within(rest[i], lo, hi);
      }
      if j :| 0 <= j < |rest| && Within(rest[j], lo, hi) {
        assert Within(leases[j], lo, hi);
      }
    }
  }

  lemma {:induction false} NoneHeld(charges: seq<Charge>, id: nat)
    ensures Held(charges, id) >= 0
    ensures (exists c :: 0 <= c < |charges| && charges[c].lease == Some(id)) <==> Held(charges, id) > 0
  {
    if charges != [] {
      var rest := charges[..|charges| - 1];
      NoneHeld(rest, id);
      if c :| 0 <= c < |charges| && charges[c].lease == Some(id) {
        assert c < |charges| - 1 ==> rest[c].lease == Some(id);
      }
      if d :| 0 <= d < |rest| && rest[d].lease == Some(id) {
        assert charges[d].lease == Some(id);
      }
    }
  }

  // ----- what every step keeps -----

  predicate PackageOk(p: Pool, k: int)
    requires 0 <= k < |p.packages|
  {
    var package := p.packages[k];
    && package.tasks == Tasks(p.leases, k, k + 1) <= PACKAGE_TASKS
    && package.transport == Transport(p.leases, k, k + 1) <= PACKAGE_TRANSPORT_BYTES
    && (package.tasks == 0 ==> package.name == "")
  }

  /** The counters are the sums over the live leases, and both levels of cap hold. */
  predicate Budgets(p: Pool) {
    && |p.packages| == FEATURE_TASKS
    && p.tasks == Tasks(p.leases, 0, FEATURE_TASKS) <= FEATURE_TASKS
    && p.transport == Transport(p.leases, 0, FEATURE_TASKS) <= FEATURE_TRANSPORT_BYTES
    && p.extra == p.tasks * EXTRA_BYTES_PER_LEASE
    && (forall k :: 0 <= k < |p.packages| ==> PackageOk(p, k))
  }

  /** Live leases sit in the slot of their name, and live slots have distinct names. */
  predicate Named(p: Pool) {
    && (forall i :: 0 <= i < |p.leases| ==> p.leases[i].transport >= 0 && 0 <= p.leases[i].slot < |p.packages|)
    && (forall i :: 0 <= i < |p.leases| && p.leases[i].admitted ==>
        p.packages[p.leases[i].slot].name == p.leases[i].name)
    && (forall j, k :: 0 <= j < k < |p.packages| && p.packages[j].tasks > 0 && p.packages[k].tasks > 0 ==>
          p.packages[j].name != p.packages[k].name)
  }

  predicate LeaseOk(p: Pool, id: nat)
    requires id < |p.leases|
  {
    var lease := p.leases[id];
    && 0 <= lease.loose && lease.refs == (if lease.handle then 1 else 0) + Held(p.charges, id) + lease.loose
    && lease.extra == OWNER_BOOKKEEPING_BYTES + HeldBytes(p.charges, id) <= EXTRA_BYTES_PER_LEASE
    && (lease.refs > 0 ==> lease.admitted)
  }

  predicate ChargeOk(p: Pool, c: Charge) {
    if c.lease.None? then c.bytes == 0 else c.lease.value < |p.leases| && c.bytes > OVERHEAD
  }

  predicate Counted(p: Pool) {
    && (forall id :: 0 <= id < |p.leases| ==> LeaseOk(p, id))
    && (forall c :: 0 <= c < |p.charges| ==> ChargeOk(p, p.charges[c]))
  }

  predicate Inv(p: Pool) {
    Budgets(p) && Named(p) && Counted(p)
  }

  /** A lease record changed without touching what the budgets count. */
  lemma SameBudgets(p: Pool, id: nat, l: Lease, charges: seq<Charge>)
    requires Budgets(p) && Named(p) && id < |p.leases|
    requires l.admitted == p.leases[id].admitted && l.slot == p.leases[id].slot && l.transport == p.leases[id].transport
    requires l.name == p.leases[id].name
    ensures var q := p.(leases := p.leases[id := l], charges := charges); Budgets(q) && Named(q)
  {
    var q := p.(leases := p.leases[id := l], charges := charges);
    TasksUpdate(p.leases, id, l, 0, FEATURE_TASKS);
    forall k | 0 <= k < |q.packages|
      ensures PackageOk(q, k)
    {
      assert PackageOk(p, k);
      TasksUpdate(p.leases, id, l, k, k + 1);
    }
  }

  lemma DestroyBudgets(p: Pool, id: nat)
    requires Budgets(p) && Named(p) && id < |p.leases| && p.leases[id].admitted
    ensures Budgets(Destroy(p, id)) && Named(Destroy(p, id))
  {
    hide Tasks, Transport, PackageOk, Named;
    DestroyTotals(p, id);
    forall k | 0 <= k < |p.packages|
      ensures PackageOk(Destroy(p, id), k)
    {
      DestroyPackage(p, id, k);
    }
    DestroyNames(p, id);
  }

  lemma DestroyTotals(p: Pool, id: nat)
    requires Budgets(p) && Named(p) && id < |p.leases| && p.leases[id].admitted
    ensures var q := Destroy(p, id);
            && |q.packages| == FEATURE_TASKS
            && q.tasks == Tasks(q.leases, 0, FEATURE_TASKS) <= FEATURE_TASKS
            && q.transport == Transport(q.leases, 0, FEATURE_TASKS) <= FEATURE_TRANSPORT_BYTES
            && q.extra == q.tasks * EXTRA_BYTES_PER_LEASE
  {
    hide Tasks, Transport, PackageOk;
    TasksUpdate(p.leases, id, p.leases[id].(admitted := false), 0, FEATURE_TASKS);
  }

  lemma DestroyPackage(p: Pool, id: nat, k: nat)
    requires Budgets(p) && Named(p) && id < |p.leases| && p.leases[id].admitted && k < |p.packages|
    ensures k < |Destroy(p, id).packages| && PackageOk(Destroy(p, id), k)
  {
    hide Tasks, Transport;
    var l := p.leases[id].(admitted := false);
    assert PackageOk(p, k);
    TasksUpdate(p.leases, id, l, k, k + 1);
  }

  /** A cleared name belongs to nobody: the slot's last lease is the one destroyed. */
  lemma DestroyNames(p: Pool, id: nat)
    requires Budgets(p) && Named(p) && id < |p.leases| && p.leases[id].admitted
    ensures Named(Destroy(p, id))
  {
    var q, l, s := Destroy(p, id), p.leases[id].(admitted := false), p.leases[id].slot;
    assert PackageOk(p, s);
    TasksUpdate(p.leases, id, l, s, s + 1);
    NonNegative(q.leases, s, s + 1);
    forall i | 0 <= i < |q.leases| && q.leases[i].admitted
      ensures q.packages[q.leases[i].slot].name == q.leases[i].name
    {
      if q.leases[i].slot == s {
        assert Within(q.leases[i], s, s + 1);
      }
    }
  }

  /** Steps that change one lease record in what the budgets do not count, and the charges. */
  lemma TouchInv(p: Pool, id: nat, l: Lease, charges: seq<Charge>)
    requires Inv(p) && id < |p.leases|
    requires l.admitted == p.leases[id].admitted && l.slot == p.leases[id].slot && l.transport == p.leases[id].transport
    requires l.name == p.leases[id].name
    requires var q := p.(leases := p.leases[id := l], charges := charges);
             && (forall k :: 0 <= k < |q.leases| ==> LeaseOk(q, k))
             && (forall c :: 0 <= c < |q.charges| ==> ChargeOk(q, q.charges[c]))
    ensures Inv(p.(leases := p.leases[id := l], charges := charges))
  {
    hide Budgets, Named, LeaseOk, ChargeOk;
    SameBudgets(p, id, l, charges);
  }

  /** A lease record changed without touching the charges. */
  lemma RecordInv(p: Pool, id: nat, l: Lease)
    requires Inv(p) && id < |p.leases|
    requires l == p.leases[id].(handle := l.handle, loose := l.loose, refs := l.refs)
    requires 0 <= l.loose && l.refs == (if l.handle then 1 else 0) + Held(p.charges, id) + l.loose <= p.leases[id].refs
    ensures Inv(p.(leases := p.leases[id := l]))
  {
    hide Held, HeldBytes, Budgets, Named;
    var q := p.(leases := p.leases[id := l]);
    forall k | 0 <= k < |q.leases|
      ensures LeaseOk(q, k)
    {
      assert LeaseOk(p, k);
    }
    forall c | 0 <= c < |q.charges|
      ensures ChargeOk(q, q.charges[c])
    {
      assert ChargeOk(p, p.charges[c]);
    }
    TouchInv(p, id, l, p.charges);
  }

  lemma UnrefInv(p: Pool, id: nat)
    requires Inv(p) && id < |p.leases|
    ensures Inv(Unref(p, id)) && |Unref(p, id).leases| == |p.leases|
  {
    hide Held, HeldBytes, Budgets, Named;
    assert LeaseOk(p, id);
    var lease := p.leases[id];
    if lease.loose > 0 {
      RecordInv(p, id, lease.(loose := lease.loose - 1, refs := lease.refs - 1));
    }
  }

  lemma DestroyInv(p: Pool, id: nat)
    requires Inv(p) && id < |p.leases| && p.leases[id].refs == 0
    ensures Inv(Destroy(p, id)) && |Destroy(p, id).leases| == |p.leases|
  {
    hide Held, HeldBytes, Tasks, Transport;
    if p.leases[id].admitted {
      DestroyBudgets(p, id);
      var q := Destroy(p, id);
      forall k | 0 <= k < |q.leases|
        ensures LeaseOk(q, k)
      {
        assert LeaseOk(p, k);
      }
      forall c | 0 <= c < |q.charges|
        ensures ChargeOk(q, q.charges[c])
      {
        assert ChargeOk(p, p.charges[c]);
      }
    }
  }

  lemma ReleaseInv(p: Pool, c: nat)
    requires Inv(p) && c < |p.charges|
    ensures Inv(Release(p, c)) && |Release(p, c).leases| == |p.leases| && Release(p, c).charges == p.charges[c := GONE]
  {
    hide Held, HeldBytes, Budgets, Named;
    assert ChargeOk(p, p.charges[c]);
    if p.charges[c].lease.Some? {
      var id, q := p.charges[c].lease.value, Release(p, c);
      forall k | 0 <= k < |q.leases|
        ensures LeaseOk(q, k)
      {
        assert LeaseOk(p, k);
        HeldUpdate(p.charges, c, GONE, k);
      }
      forall d | 0 <= d < |q.charges|
        ensures ChargeOk(q, q.charges[d])
      {
        assert ChargeOk(p, p.charges[d]);
      }
      TouchInv(p, id, q.leases[id], q.charges);
    }
  }

  /** What the slot search finds: a live slot of that name; or no live slot has it and the slot is free, or all are
      taken. */
  predicate Found(packages: seq<Package>, name: string, slot: nat) {
    if slot < |packages| && packages[slot].tasks != 0 then packages[slot].name == name
    else
      && (forall k :: 0 <= k < |packages| && packages[k].tasks != 0 ==> packages[k].name != name)
      && (slot >= |packages| ==> slot == |packages| && forall k :: 0 <= k < |packages| ==> packages[k].tasks != 0)
  }

  lemma {:induction false} FindFound(packages: seq<Package>, name: string, index: nat, slot: nat)
    requires index <= |packages|
    requires slot == |packages| || (slot < index && packages[slot].tasks == 0)
    requires forall k :: 0 <= k < index && packages[k].tasks != 0 ==> packages[k].name != name
    requires slot == |packages| ==> forall k :: 0 <= k < index ==> packages[k].tasks != 0
    ensures Found(packages, name, Find(packages, name, index, slot))
    decreases |packages| - index
  {
    if index < |packages| && !(packages[index].tasks != 0 && packages[index].name == name) {
      FindFound(packages, name, index + 1, if packages[index].tasks == 0 && slot == |packages| then index else slot);
    }
  }

  /** When a slot holds exactly the live leases of a name, the two ways of counting agree. */
  lemma {:induction false} NamedIsSlot(leases: seq<Lease>, name: string, k: int)
    requires forall i :: 0 <= i < |leases| && leases[i].admitted ==> (leases[i].slot == k <==> leases[i].name == name)
    ensures NamedTasks(leases, name) == Tasks(leases, k, k + 1)
    ensures NamedTransport(leases, name) == Transport(leases, k, k + 1)
  {
    if leases != [] {
      NamedIsSlot(leases[..|leases| - 1], name, k);
    }
  }

  lemma {:induction false} FullSlots(p: Pool, n: int)
    requires Budgets(p) && 0 <= n <= |p.packages| && forall k :: 0 <= k < |p.packages| ==> p.packages[k].tasks > 0
    ensures Tasks(p.leases, 0, n) >= n
  {
    if n == 0 {
      NoSlots(p.leases, 0);
    } else {
      FullSlots(p, n - 1);
      assert PackageOk(p, n - 1);
      SplitSlots(p.leases, 0, n - 1, n);
    }
  }

  lemma {:induction false} NoSlots(leases: seq<Lease>, k: int)
    ensures Tasks(leases, k, k) == 0
  {
    if leases != [] {
      NoSlots(leases[..|leases| - 1], k);
    }
  }

  /** The abstract budgets: they mention names and live leases, not slots. */
  predicate Fits(p: Pool, name: string, transport: nat, process: bool) {
    && process && Context.ValidName(name) && p.accepting
    && Tasks(p.leases, 0, FEATURE_TASKS) < FEATURE_TASKS
    && Transport(p.leases, 0, FEATURE_TASKS) + transport <= FEATURE_TRANSPORT_BYTES
    && NamedTasks(p.leases, name) < PACKAGE_TASKS
    && NamedTransport(p.leases, name) + transport <= PACKAGE_TRANSPORT_BYTES
  }

  /** The slot the search settles on speaks for the name. */
  lemma SlotSpeaksForName(p: Pool, name: string)
    requires Budgets(p) && Named(p) && name != ""
    ensures var slot := Find(p.packages, name, 0, |p.packages|);
            && Found(p.packages, name, slot)
            && (slot >= |p.packages| ==> p.tasks == FEATURE_TASKS)
            && (slot < |p.packages| ==>
                  && p.packages[slot].tasks == NamedTasks(p.leases, name)
                  && p.packages[slot].transport == NamedTransport(p.leases, name) >= 0)
  {
    FindFound(p.packages, name, 0, |p.packages|);
    var slot := Find(p.packages, name, 0, |p.packages|);
    forall k | 0 <= k < |p.packages|
      ensures p.packages[k].tasks >= 0 && p.packages[k].transport >= 0
      ensures (exists i :: 0 <= i < |p.leases| && Within(p.leases[i], k, k + 1)) <==> p.packages[k].tasks > 0
    {
      assert PackageOk(p, k);
      NonNegative(p.leases, k, k + 1);
    }
    if slot >= |p.packages| {
      FullSlots(p, |p.packages|);
    } else {
      assert PackageOk(p, slot);
      forall i | 0 <= i < |p.leases| && p.leases[i].admitted
        ensures p.leases[i].slot == slot <==> p.leases[i].name == name
      {
        assert Within(p.leases[i], p.leases[i].slot, p.leases[i].slot + 1);
      }
      NamedIsSlot(p.leases, name, slot);
    }
  }

  /** A lease is granted exactly when the abstract budgets allow it; the refusal for want of a slot never happens. */
  lemma AcquireIffFits(p: Pool, name: string, transport: nat, process: bool)
    requires Inv(p)
    ensures Fits(p, name, transport, process) <==> |Acquire(p, name, transport, process).leases| == |p.leases| + 1
    ensures !Fits(p, name, transport, process) <==> Acquire(p, name, transport, process) == p
    ensures Fits(p, name, transport, process) ==>
              Find(p.packages, name, 0, |p.packages|) < |p.packages|
              && Acquire(p, name, transport, process)
                     == Admit(p, name, transport, Find(p.packages, name, 0, |p.packages|))
  {
    hide Tasks, Transport, NamedTasks, NamedTransport, Find;
    if Context.ValidName(name) {
      SlotSpeaksForName(p, name);
      var slot := Find(p.packages, name, 0, |p.packages|);
      assert slot < |p.packages| ==> PackageOk(p, slot);
    }
  }

  lemma AdmitInv(p: Pool, name: string, transport: nat)
    requires Inv(p) && Fits(p, name, transport, true)
    requires Find(p.packages, name, 0, |p.packages|) < |p.packages|
    ensures Inv(Admit(p, name, transport, Find(p.packages, name, 0, |p.packages|)))
  {
    hide Find, Tasks, Transport, NamedTasks, NamedTransport, Found, PackageOk, Counted, Named, Admit;
    var slot := Find(p.packages, name, 0, |p.packages|);
    SlotSpeaksForName(p, name);
    AdmitTotals(p, name, transport, slot);
    forall k | 0 <= k < |p.packages|
      ensures PackageOk(Admit(p, name, transport, slot), k)
    {
      AdmitPackage(p, name, transport, slot, k);
    }
    AdmitNames(p, name, transport, slot);
    AdmitCounted(p, name, transport, slot);
  }

  lemma AdmitTotals(p: Pool, name: string, transport: nat, slot: nat)
    requires Budgets(p) && slot < |p.packages| && p.tasks < FEATURE_TASKS
             && p.transport + transport <= FEATURE_TRANSPORT_BYTES
    ensures var q := Admit(p, name, transport, slot);
            && |q.packages| == FEATURE_TASKS
            && q.tasks == Tasks(q.leases, 0, FEATURE_TASKS) <= FEATURE_TASKS
            && q.transport == Transport(q.leases, 0, FEATURE_TASKS) <= FEATURE_TRANSPORT_BYTES
            && q.extra == q.tasks * EXTRA_BYTES_PER_LEASE
  {
    hide PackageOk;
    assert Admit(p, name, transport, slot).leases[..|p.leases|] == p.leases;
  }

  lemma AdmitPackage(p: Pool, name: string, transport: nat, slot: nat, k: nat)
    requires Budgets(p) && slot < |p.packages| && k < |p.packages|
    requires p.packages[slot].tasks < PACKAGE_TASKS && p.packages[slot].transport + transport <= PACKAGE_TRANSPORT_BYTES
    requires Named(p)
    ensures k < |Admit(p, name, transport, slot).packages| && PackageOk(Admit(p, name, transport, slot), k)
  {
    assert Admit(p, name, transport, slot).leases[..|p.leases|] == p.leases;
    assert PackageOk(p, k);
    NonNegative(p.leases, k, k + 1);
  }

  lemma AdmitNames(p: Pool, name: string, transport: nat, slot: nat)
    requires Budgets(p) && Named(p) && slot < |p.packages| && Found(p.packages, name, slot)
    ensures Named(Admit(p, name, transport, slot))
  {
    hide Tasks, Transport;
    var q := Admit(p, name, transport, slot);
    assert PackageOk(p, slot);
    NonNegative(p.leases, slot, slot + 1);
    forall i | 0 <= i < |q.leases| && q.leases[i].admitted
      ensures q.packages[q.leases[i].slot].name == q.leases[i].name
    {
      if i < |p.leases| && p.leases[i].slot == slot {
        assert Within(p.leases[i], slot, slot + 1);
      }
    }
  }

  lemma AdmitCounted(p: Pool, name: string, transport: nat, slot: nat)
    requires Counted(p) && slot < |p.packages|
    ensures Counted(Admit(p, name, transport, slot))
  {
    hide Held, HeldBytes;
    var q := Admit(p, name, transport, slot);
    forall c | 0 <= c < |q.charges|
      ensures ChargeOk(q, q.charges[c])
    {
      assert ChargeOk(p, p.charges[c]);
    }
    forall id | 0 <= id < |q.leases|
      ensures LeaseOk(q, id)
    {
      if id < |p.leases| {
        assert LeaseOk(p, id);
      } else {
        NothingHeld(p, id);
      }
    }
  }

  lemma NothingHeld(p: Pool, id: nat)
    requires Counted(p) && id >= |p.leases|
    ensures Held(p.charges, id) == 0 && HeldBytes(p.charges, id) == 0
  {
    assert forall c :: 0 <= c < |p.charges| ==> ChargeOk(p, p.charges[c]);
    NothingHeldIn(p.charges, id);
  }

  lemma {:induction false} NothingHeldIn(charges: seq<Charge>, id: nat)
    requires forall c :: 0 <= c < |charges| ==> charges[c].lease != Some(id)
    ensures Held(charges, id) == 0 && HeldBytes(charges, id) == 0
  {
    if charges != [] {
      NothingHeldIn(charges[..|charges| - 1], id);
    }
  }

  /** Charges may be shuffled as long as each lease keeps its own. */
  lemma SameCounted(p: Pool, charges: seq<Charge>)
    requires Inv(p)
    requires forall id :: 0 <= id < |p.leases| ==>
               Held(charges, id) == Held(p.charges, id) && HeldBytes(charges, id) == HeldBytes(p.charges, id)
    requires forall c :: 0 <= c < |charges| ==> ChargeOk(p, charges[c])
    ensures Inv(p.(charges := charges))
  {
    hide Held, HeldBytes, Tasks, Transport;
    var q := p.(charges := charges);
    forall id | 0 <= id < |q.leases|
      ensures LeaseOk(q, id)
    {
      assert LeaseOk(p, id);
    }
    forall k | 0 <= k < |q.packages|
      ensures PackageOk(q, k)
    {
      assert PackageOk(p, k);
    }
  }

  lemma HeldAppend(charges: seq<Charge>, c: Charge, id: nat)
    ensures Held(charges + [c], id) == Held(charges, id) + if c.lease == Some(id) then 1 else 0
    ensures HeldBytes(charges + [c], id) == HeldBytes(charges, id) + if c.lease == Some(id) then c.bytes else 0
  {
    assert (charges + [c])[..|charges|] == charges;
  }

  lemma MoveInv(p: Pool, c: nat)
    requires Inv(p) && c < |p.charges|
    ensures Inv(Step(p, MoveCharge(c)))
  {
    hide Held, HeldBytes, Inv;
    var charges := p.charges[c := GONE] + [p.charges[c]];
    forall id | 0 <= id < |p.leases|
      ensures Held(charges, id) == Held(p.charges, id) && HeldBytes(charges, id) == HeldBytes(p.charges, id)
    {
      HeldUpdate(p.charges, c, GONE, id);
      HeldAppend(p.charges[c := GONE], p.charges[c], id);
    }
    ChargesOk(p);
    SameCounted(p, charges);
  }

  lemma ChargesOk(p: Pool)
    requires Inv(p)
    ensures forall c :: 0 <= c < |p.charges| ==> ChargeOk(p, p.charges[c])
  {
  }

  /** A charge moved over one that is gone. */
  lemma ShuffleInv(p: Pool, t: nat, s: nat)
    requires Inv(p) && t < |p.charges| && s < |p.charges| && t != s && p.charges[t] == GONE
    ensures Inv(p.(charges := p.charges[t := p.charges[s]][s := GONE]))
  {
    hide Held, HeldBytes, Inv;
    var charges := p.charges[t := p.charges[s]][s := GONE];
    forall id | 0 <= id < |p.leases|
      ensures Held(charges, id) == Held(p.charges, id) && HeldBytes(charges, id) == HeldBytes(p.charges, id)
    {
      HeldUpdate(p.charges, t, p.charges[s], id);
      HeldUpdate(p.charges[t := p.charges[s]], s, GONE, id);
    }
    ChargesOk(p);
    SameCounted(p, charges);
  }

  lemma AssignInv(p: Pool, t: nat, s: nat)
    requires Inv(p) && t < |p.charges| && s < |p.charges| && t != s
    ensures Inv(Step(p, AssignCharge(t, s))) && |Step(p, AssignCharge(t, s)).leases| == |p.leases|
  {
    hide Inv, Release;
    ReleaseInv(p, t);
    var q := Release(p, t);
    ShuffleInv(q, t, s);
    assert q.charges[t := q.charges[s]][s := GONE] == p.charges[t := p.charges[s]][s := GONE];
  }

  lemma ReserveInv(p: Pool, id: nat, payload: nat)
    requires Inv(p) && id < |p.leases| && p.leases[id].handle
    ensures Inv(Reserve(p, id, payload)) && |Reserve(p, id, payload).leases| == |p.leases|
  {
    hide Held, HeldBytes, Budgets, Named;
    var q := Reserve(p, id, payload);
    if q != p {
      var l, charge := q.leases[id], q.charges[|p.charges|];
      assert LeaseOk(p, id);
      NoneHeld(p.charges, id);
      SameBudgets(p, id, l, q.charges);
      forall k | 0 <= k < |q.leases|
        ensures LeaseOk(q, k)
      {
        assert LeaseOk(p, k);
        HeldAppend(p.charges, charge, k);
      }
      forall c | 0 <= c < |q.charges|
        ensures ChargeOk(q, q.charges[c])
      {
        assert c < |p.charges| ==> ChargeOk(p, p.charges[c]);
      }
    }
  }

  lemma DropInv(p: Pool, id: nat)
    requires Inv(p) && id < |p.leases| && p.leases[id].handle
    ensures Inv(Step(p, DropHandle(id))) && |Step(p, DropHandle(id)).leases| == |p.leases|
  {
    hide Held, HeldBytes, Budgets, Named;
    assert LeaseOk(p, id);
    RecordInv(p, id, p.leases[id].(handle := false, refs := p.leases[id].refs - 1));
  }

  lemma CloseInv(p: Pool)
    requires Inv(p)
    ensures Inv(p.(accepting := false))
  {
    hide Held, HeldBytes, Tasks, Transport;
    var q := p.(accepting := false);
    assert forall k :: 0 <= k < |p.packages| ==> PackageOk(p, k) ==> PackageOk(q, k);
    assert forall id :: 0 <= id < |p.leases| ==> LeaseOk(p, id) ==> LeaseOk(q, id);
    assert forall c :: 0 <= c < |p.charges| ==> ChargeOk(p, p.charges[c]) ==> ChargeOk(q, q.charges[c]);
  }

  lemma StepInv(p: Pool, e: Event)
    requires Inv(p)
    ensures Inv(Step(p, e))
  {
    hide Inv, Acquire, Release, Reserve, Unref, Destroy;
    match e
    case TryAcquire(name, transport, process) =>
      AcquireIffFits(p, name, transport, process);
      if Fits(p, name, transport, process) {
        AdmitInv(p, name, transport);
      }
    case ReserveExtra(id, payload) =>
      if id < |p.leases| && p.leases[id].handle {
        ReserveInv(p, id, payload);
      }
    case MoveCharge(c) =>
      if c < |p.charges| {
        MoveInv(p, c);
      }
    case AssignCharge(t, s) =>
      if t < |p.charges| && s < |p.charges| && t != s {
        AssignInv(p, t, s);
      }
    case ReleaseCharge(c) =>
      if c < |p.charges| {
        ReleaseInv(p, c);
      }
    case DropHandle(id) =>
      if id < |p.leases| && p.leases[id].handle {
        DropInv(p, id);
      }
    case DropReference(id) =>
      if id < |p.leases| {
        UnrefInv(p, id);
      }
    case DestroyLease(id) =>
      if id < |p.leases| && p.leases[id].refs == 0 {
        DestroyInv(p, id);
      }
    case CloseAdmission => CloseInv(p);
  }

  // ----- whole runs -----

  const FREE := [EMPTY_PACKAGE, EMPTY_PACKAGE, EMPTY_PACKAGE, EMPTY_PACKAGE,
                 EMPTY_PACKAGE, EMPTY_PACKAGE, EMPTY_PACKAGE, EMPTY_PACKAGE]
  const EMPTY := Pool(true, 0, 0, 0, FREE, [], [])

  function After(es: seq<Event>, i: nat): Pool
    requires i <= |es|
  {
    if i == 0 then EMPTY else Step(After(es, i - 1), es[i - 1])
  }

  lemma {:induction false} RunInv(es: seq<Event>, i: nat)
    requires i <= |es|
    ensures Inv(After(es, i))
  {
    hide Step;
    if i == 0 {
      assert forall k :: 0 <= k < |EMPTY.packages| ==> PackageOk(EMPTY, k);
    } else {
      RunInv(es, i - 1);
      StepInv(After(es, i - 1), es[i - 1]);
    }
  }

  /** In every run: the counters are sums over the live leases, both levels of cap hold for every package name, and no
      lease has more than its own extra bytes charged. */
  lemma RunBudgets(es: seq<Event>, i: nat, name: string)
    requires i <= |es|
    ensures var p := After(es, i);
            && p.tasks == Tasks(p.leases, 0, FEATURE_TASKS) <= FEATURE_TASKS
            && p.transport == Transport(p.leases, 0, FEATURE_TASKS) <= FEATURE_TRANSPORT_BYTES
            && p.extra == p.tasks * EXTRA_BYTES_PER_LEASE
            && NamedTasks(p.leases, name) <= PACKAGE_TASKS && NamedTransport(p.leases, name) <= PACKAGE_TRANSPORT_BYTES
            && forall id :: 0 <= id < |p.leases| ==>
                 OWNER_BOOKKEEPING_BYTES + HeldBytes(p.charges, id) == p.leases[id].extra <= EXTRA_BYTES_PER_LEASE
  {
    hide Tasks, Transport, NamedTasks, NamedTransport, Find, HeldBytes, Held;
    RunInv(es, i);
    var p := After(es, i);
    NameBudget(p, name);
    forall id | 0 <= id < |p.leases|
      ensures OWNER_BOOKKEEPING_BYTES + HeldBytes(p.charges, id) == p.leases[id].extra <= EXTRA_BYTES_PER_LEASE
    {
      assert LeaseOk(p, id);
    }
  }

  lemma NameBudget(p: Pool, name: string)
    requires Budgets(p) && Named(p)
    ensures NamedTasks(p.leases, name) <= PACKAGE_TASKS && NamedTransport(p.leases, name) <= PACKAGE_TRANSPORT_BYTES
  {
    if i :| 0 <= i < |p.leases| && p.leases[i].admitted && p.leases[i].name == name {
      var k := p.leases[i].slot;
      forall j | 0 <= j < |p.leases| && p.leases[j].admitted
        ensures (p.leases[j].slot == k <==> p.leases[j].name == name)
      {
        LiveSlot(p, i);
        LiveSlot(p, j);
      }
      NamedIsSlot(p.leases, name, k);
      assert PackageOk(p, k);
    } else {
      NamedIsSlot(p.leases, name, -1);
      NoSlot(p.leases);
    }
  }

  lemma LiveSlot(p: Pool, i: nat)
    requires Budgets(p) && Named(p) && i < |p.leases| && p.leases[i].admitted
    ensures p.packages[p.leases[i].slot].tasks > 0
  {
    assert Within(p.leases[i], p.leases[i].slot, p.leases[i].slot + 1);
    NonNegative(p.leases, p.leases[i].slot, p.leases[i].slot + 1);
    assert PackageOk(p, p.leases[i].slot);
  }

  lemma {:induction false} NoSlot(leases: seq<Lease>)
    requires forall i :: 0 <= i < |leases| ==> leases[i].slot >= 0
    ensures Tasks(leases, -1, 0) == 0 && Transport(leases, -1, 0) == 0
  {
    if leases != [] {
      NoSlot(leases[..|leases| - 1]);
    }
  }

  /** A lease keeps its credits while its handle, some charge taken through it, wherever moved, or a call that holds a
      reference is left; once nothing is, the destructor is due, nothing can be taken through the lease any more, and
      the destructor gives the credits back. */
  lemma CountedUntilGone(es: seq<Event>, i: nat, id: nat)
    requires i <= |es| && id < |After(es, i).leases|
    ensures var p := After(es, i);
            var referred := || p.leases[id].handle || p.leases[id].loose > 0
                            || exists c :: 0 <= c < |p.charges| && p.charges[c].lease == Some(id);
            && (referred ==> p.leases[id].admitted)
            && (p.leases[id].admitted && !referred ==>
                  !Step(p, DestroyLease(id)).leases[id].admitted && Step(p, DestroyLease(id)).tasks == p.tasks - 1)
            && (!referred ==> forall j :: i <= j <= |es| ==>
                  id < |After(es, j).leases| && After(es, j).leases[id].refs == 0)
  {
    hide Held, HeldBytes, Tasks, Transport;
    RunInv(es, i);
    var p := After(es, i);
    assert LeaseOk(p, id);
    NoneHeld(p.charges, id);
    if p.leases[id].refs == 0 {
      forall j | i <= j <= |es|
        ensures id < |After(es, j).leases| && After(es, j).leases[id].refs == 0
      {
        RunLater(es, i, j);
        RunInv(es, j);
        RefsNonNegative(After(es, j), id);
      }
    }
  }

  lemma RefsNonNegative(p: Pool, id: nat)
    requires Inv(p) && id < |p.leases|
    ensures p.leases[id].refs >= 0
  {
    assert LeaseOk(p, id);
    NoneHeld(p.charges, id);
  }

  predicate Later(p: Pool, q: Pool) {
    && |p.leases| <= |q.leases|
    && (!p.accepting ==> !q.accepting && |q.leases| == |p.leases|)
    && (forall id :: 0 <= id < |p.leases| && !p.leases[id].admitted ==> !q.leases[id].admitted)
    && (forall id :: 0 <= id < |p.leases| && p.leases[id].refs <= 0 ==> q.leases[id].refs <= 0)
  }

  lemma StepLater(p: Pool, e: Event)
    requires Inv(p)
    ensures Later(p, Step(p, e))
  {
    hide Find, Inv;
    if e.ReserveExtra? && e.lease < |p.leases| && p.leases[e.lease].handle {
      HandleRefers(p, e.lease);
    }
  }

  lemma HandleRefers(p: Pool, id: nat)
    requires Inv(p) && id < |p.leases| && p.leases[id].handle
    ensures p.leases[id].refs > 0
  {
    assert LeaseOk(p, id);
    NoneHeld(p.charges, id);
  }

  lemma {:induction false} RunLater(es: seq<Event>, i: nat, j: nat)
    requires i <= j <= |es|
    ensures Later(After(es, i), After(es, j))
    decreases j
  {
    hide Step, Inv;
    if i < j {
      RunLater(es, i, j - 1);
      RunInv(es, j - 1);
      StepLater(After(es, j - 1), es[j - 1]);
    }
  }

  /** `drain` answers true when admission is closed and no task is counted: from then on no lease is live, no charge
      refers to one, every budget is whole again, and nothing is ever admitted. */
  lemma DrainIsFinal(es: seq<Event>, i: nat, j: nat)
    requires i <= j <= |es| && !After(es, i).accepting && After(es, i).tasks == 0
    ensures var p := After(es, j);
            && !p.accepting && p.tasks == 0 && p.transport == 0 && p.extra == 0
            && |p.leases| == |After(es, i).leases|
            && (forall id :: 0 <= id < |p.leases| ==> !p.leases[id].admitted && !p.leases[id].handle)
            && (forall c :: 0 <= c < |p.charges| ==> p.charges[c] == GONE)
  {
    RunInv(es, i);
    RunInv(es, j);
    RunLater(es, i, j);
    NoneLive(After(es, i));
    NoneCounted(After(es, j));
  }

  lemma NoneLive(p: Pool)
    requires Inv(p) && p.tasks == 0
    ensures forall id :: 0 <= id < |p.leases| ==> !p.leases[id].admitted
  {
    NonNegative(p.leases, 0, FEATURE_TASKS);
    assert forall id :: 0 <= id < |p.leases| && p.leases[id].admitted ==> Within(p.leases[id], 0, FEATURE_TASKS);
  }

  lemma NoneCounted(p: Pool)
    requires Inv(p) && forall id :: 0 <= id < |p.leases| ==> !p.leases[id].admitted
    ensures p.tasks == 0 && p.transport == 0 && p.extra == 0
    ensures forall id :: 0 <= id < |p.leases| ==> !p.leases[id].handle
    ensures forall c :: 0 <= c < |p.charges| ==> p.charges[c] == GONE
  {
    hide Held, HeldBytes;
    NonNegative(p.leases, 0, FEATURE_TASKS);
    forall id | 0 <= id < |p.leases|
      ensures !p.leases[id].handle && forall c :: 0 <= c < |p.charges| ==> p.charges[c].lease != Some(id)
    {
      assert LeaseOk(p, id);
      NoneHeld(p.charges, id);
    }
    forall c | 0 <= c < |p.charges|
      ensures p.charges[c] == GONE
    {
      assert ChargeOk(p, p.charges[c]);
    }
  }

  // ----- the pool as an object -----

  /** A charge released with nobody in between: bytes, reference, and the destructor of the last one. */
  function ReleasedAlone(p: Pool, c: nat): Pool
    requires c < |p.charges|
  {
    var q := Release(p, c);
    if p.charges[c].lease.None? then q
    else Step(Step(q, DropReference(p.charges[c].lease.value)), DestroyLease(p.charges[c].lease.value))
  }

  lemma SlotInRange(p: Pool, id: nat)
    requires Inv(p) && id < |p.leases|
    ensures |p.packages| == 8 && 0 <= p.leases[id].slot < 8
  {
  }

  lemma LooseNonNegative(p: Pool, id: nat)
    requires Inv(p) && id < |p.leases|
    ensures p.leases[id].loose >= 0
  {
    assert LeaseOk(p, id);
  }

  lemma RefersAdmitted(p: Pool, id: nat)
    requires Inv(p) && id < |p.leases|
    ensures 0 <= p.leases[id].refs && (p.leases[id].refs > 0 ==> p.leases[id].admitted)
  {
    assert LeaseOk(p, id);
    NoneHeld(p.charges, id);
  }

  lemma ExtraNonNegative(p: Pool, id: nat)
    requires Inv(p) && id < |p.leases|
    ensures p.leases[id].extra >= 0
  {
    hide Tasks, Transport, Held;
    assert LeaseOk(p, id);
    assert forall c :: 0 <= c < |p.charges| ==> ChargeOk(p, p.charges[c]);
    BytesNonNegative(p.charges, id);
  }

  lemma {:induction false} BytesNonNegative(charges: seq<Charge>, id: nat)
    requires forall c :: 0 <= c < |charges| ==> charges[c].bytes >= 0
    ensures HeldBytes(charges, id) >= 0
  {
    if charges != [] {
      BytesNonNegative(charges[..|charges| - 1], id);
    }
  }

  class CreditState {
    var accepting: bool
    var tasks: int
    var transport: int
    var extra: int
    const packages: array<Package>
    var leases: seq<Lease>
    var charges: seq<Charge>

    ghost function View(): Pool
      reads this, packages
    {
      Pool(accepting, tasks, transport, extra, packages[..], leases, charges)
    }

    constructor ()
      ensures View() == EMPTY && fresh(packages)
    {
      accepting, tasks, transport, extra, leases, charges := true, 0, 0, 0, [], [];
      packages := new Package[8](_ => EMPTY_PACKAGE);
    }

    /** A lease exactly when the abstract budgets allow one. */
    method TryAcquire(name: string, bytes: nat, process: bool) returns (lease: Option<nat>)
      requires Inv(View())
      modifies this, packages
      ensures Inv(View()) && View() == Acquire(old(View()), name, bytes, process)
      ensures lease.Some? <==> old(Fits(View(), name, bytes, process))
      ensures lease.Some? ==> lease.value == old(|leases|) < |leases| && leases[lease.value].admitted
    {
      hide Inv, Tasks, Transport, NamedTasks, NamedTransport, Found;
      ghost var p := View();
      AcquireIffFits(p, name, bytes, process);
      StepInv(p, Event.TryAcquire(name, bytes, process));
      lease := None;
      if !process || !Context.ValidName(name) || bytes > PACKAGE_TRANSPORT_BYTES {
        return;
      }
      if !accepting || tasks == FEATURE_TASKS || bytes > FEATURE_TRANSPORT_BYTES - transport {
        return;
      }
      var slot, index := packages.Length, 0;
      var done := false;
      while index < packages.Length && !done
        invariant index <= packages.Length && 0 <= slot && (done ==> slot < packages.Length)
        invariant Find(p.packages, name, 0, |p.packages|) == if done then slot else Find(p.packages, name, index, slot)
        decreases packages.Length - index, !done
      {
        if packages[index].tasks != 0 && packages[index].name == name {
          slot, done := index, true;
        } else {
          if packages[index].tasks == 0 && slot == packages.Length {
            slot := index;
          }
          index := index + 1;
        }
      }
      if slot >= packages.Length {
        return;
      }
      var package := packages[slot];
      if package.tasks == PACKAGE_TASKS || bytes > PACKAGE_TRANSPORT_BYTES - package.transport {
        return;
      }
      if package.tasks == 0 {
        package := package.(name := name);
      }
      packages[slot] := package.(tasks := package.tasks + 1, transport := package.transport + bytes);
      tasks, transport, extra := tasks + 1, transport + bytes, extra + EXTRA_BYTES_PER_LEASE;
      lease := Some(|leases|);
      leases := leases + [Lease(name, slot, bytes, OWNER_BOOKKEEPING_BYTES, true, 0, 1, true)];
    }

    /** The destructor of the lease state, when no reference is left. */
    method DestroyIfLast(id: nat)
      requires Inv(View()) && id < |leases|
      modifies this, packages
      ensures Inv(View()) && View() == Step(old(View()), DestroyLease(id)) && charges == old(charges)
    {
      hide Inv;
      StepInv(View(), DestroyLease(id));
      SlotInRange(View(), id);
      var lease := leases[id];
      if lease.refs == 0 && lease.admitted {
        var package := packages[lease.slot];
        package := package.(tasks := package.tasks - 1, transport := package.transport - lease.transport);
        tasks, transport, extra := tasks - 1, transport - lease.transport, extra - EXTRA_BYTES_PER_LEASE;
        if package.tasks == 0 {
          package := package.(name := "");
        }
        packages[lease.slot] := package;
        leases := leases[id := lease.(admitted := false)];
      }
    }

    /** release: the lock section, the reference after it, and the destructor if it was the last one. */
    method ReleaseCharge(c: nat)
      requires Inv(View()) && c < |charges|
      modifies this, packages
      ensures Inv(View()) && charges == old(charges)[c := GONE]
      ensures View() == ReleasedAlone(old(View()), c)
    {
      hide Inv, Destroy;
      ChargesOk(View());
      ReleaseInv(View(), c);
      if charges[c].lease.None? {
        return;
      }
      var id, bytes := charges[c].lease.value, charges[c].bytes;
      LooseNonNegative(View(), id);
      leases := leases[id := leases[id].(extra := leases[id].extra - bytes, loose := leases[id].loose + 1)];
      charges := charges[c := GONE];
      UnrefInv(View(), id);
      leases := leases[id := leases[id].(loose := leases[id].loose - 1, refs := leases[id].refs - 1)];
      DestroyIfLast(id);
    }

    /** Move assignment: the target's own charge is released first; assigning a charge to itself does nothing. */
    method AssignCharge(target: nat, source: nat)
      requires Inv(View()) && target < |charges| && source < |charges|
      modifies this, packages
      ensures Inv(View())
      ensures target == source ==> View() == old(View())
      ensures target != source ==>
                View() == ReleasedAlone(old(View()), target)
                          .(charges := old(charges)[target := old(charges[source])][source := GONE])
    {
      hide Inv, ReleasedAlone;
      if target != source {
        ReleaseCharge(target);
        ShuffleInv(View(), target, source);
        charges := charges[target := charges[source]][source := GONE];
      }
    }

    method ReserveExtra(id: nat, payload: nat) returns (charge: Option<nat>)
      requires Inv(View()) && id < |leases| && leases[id].handle
      modifies this
      ensures Inv(View()) && View() == Reserve(old(View()), id, payload)
      ensures charge.Some? <==> 0 < payload && payload + OVERHEAD <= EXTRA_BYTES_PER_LEASE - old(leases[id].extra)
      ensures charge.Some? ==>
                charge.value == old(|charges|) < |charges| && charges[charge.value].bytes == payload + OVERHEAD
    {
      hide Held, HeldBytes, Tasks, Transport;
      ReserveInv(View(), id, payload);
      assert LeaseOk(View(), id);
      ExtraNonNegative(View(), id);
      if payload == 0 || payload > EXTRA_BYTES_PER_LEASE - OVERHEAD {
        return None;
      }
      var bytes := payload + OVERHEAD;
      if bytes > EXTRA_BYTES_PER_LEASE - leases[id].extra {
        return None;
      }
      leases := leases[id := leases[id].(extra := leases[id].extra + bytes, refs := leases[id].refs + 1)];
      charge := Some(|charges|);
      charges := charges + [Charge(Some(id), bytes)];
    }

    method DropHandle(id: nat)
      requires Inv(View()) && id < |leases| && leases[id].handle
      modifies this, packages
      ensures Inv(View()) && View() == Step(Step(old(View()), Event.DropHandle(id)), DestroyLease(id))
      ensures |leases| == old(|leases|) && (leases[id].admitted <==> leases[id].refs > 0)
    {
      hide Inv;
      StepInv(View(), Event.DropHandle(id));
      HandleRefers(View(), id);
      RefersAdmitted(View(), id);
      leases := leases[id := leases[id].(handle := false, refs := leases[id].refs - 1)];
      RefersAdmitted(View(), id);
      SlotInRange(View(), id);
      DestroyIfLast(id);
    }
  }
}
