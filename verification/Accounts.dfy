/**
 Any number of connect, refresh and disconnect calls at once: the unlocked look-ups and preparations, the
 per-account locks, and the locked sessions, interleaved freely.
 */
module Accounts {
  import opened Common
  import opened AccountData
  import opened AccountLocks

  type OpId = nat

  datatype Op =
    | Looking(request: Request)
    | Preparing(request: Request)
    | Wanting(request: Request, id: Id, isNew: bool)
    | Waiting(request: Request, id: Id, isNew: bool, lock: LockId)
    | Locked(request: Request, id: Id, isNew: bool, lock: LockId)
    | Inside(lock: LockId, session: Session)
    | Expiring(id: Id)
    | Gone

  /** The lock map, and how many account ids and lock objects have been given out. */
  datatype Table = Table(locks: map<Id, LockId>, nextId: Id, nextLock: LockId)

  datatype State = State(world: World, table: Table, ops: map<OpId, Op>)

  datatype Step =
    | Begin(o: OpId, request: Request, id: Id)
    | LookUp(o: OpId, found: Option<Id>, works: bool)
    | Prepare(o: OpId, found: Option<Id>, a: Answer)
    | TakeHandle(o: OpId)
    | Acquire(o: OpId)
    | ReRead(o: OpId, works: bool)
    | Act(o: OpId, a: Answer)
    | Forget(o: OpId)
    | Leave(o: OpId)
    | Notice(o: OpId, id: Id)
    | Expire(o: OpId, works: bool)

  predicate HasHandle(op: Op) { op.Waiting? || op.Locked? || op.Inside? }

  predicate Holds(op: Op) { op.Locked? || op.Inside? }

  function Account(op: Op): Id
    requires HasHandle(op)
  {
    if op.Inside? then op.session.id else op.id
  }

  function InUse(ops: map<OpId, Op>): set<LockId> {
    set o | o in ops && HasHandle(ops[o]) :: ops[o].lock
  }

  predicate LockFree(ops: map<OpId, Op>, lock: LockId) {
    forall o :: o in ops && Holds(ops[o]) ==> ops[o].lock != lock
  }

  /** The row an identity look-up finds, if there is one. */
  predicate FindsIdentity(w: World, request: Request, found: Option<Id>)
    requires request.Connect?
  {
    match found
    case Some(id) => id in w.rows && w.rows[id].product == request.product && w.rows[id].identity == request.identity
    case None =>
      forall id :: id in w.rows ==>
        !(w.rows[id].product == request.product && w.rows[id].identity == request.identity)
  }

  predicate Finds(w: World, request: Request, found: Option<Id>)
    requires request.Connect?
  {
    match request.account
    case Some(id) => found == if id in w.rows then Some(id) else None
    case None => FindsIdentity(w, request, found)
  }

  predicate Enabled(s: State, step: Step) {
    match step
    case Begin(o, request, id) =>
      o !in s.ops && id < s.table.nextId
      && (request.Connect? ==> request.account.Some? ==> request.account.value < s.table.nextId)
    case LookUp(o, found, _) =>
      o in s.ops && s.ops[o].Looking? && s.ops[o].request.Connect? && Finds(s.world, s.ops[o].request, found)
    case Prepare(o, found, _) =>
      o in s.ops && s.ops[o].Preparing? && s.ops[o].request.Connect? && FindsIdentity(s.world, s.ops[o].request, found)
    case TakeHandle(o) => o in s.ops && s.ops[o].Wanting?
    case Acquire(o) => o in s.ops && s.ops[o].Waiting? && LockFree(s.ops, s.ops[o].lock)
    case ReRead(o, _) => o in s.ops && s.ops[o].Locked?
    case Act(o, _) => o in s.ops && s.ops[o].Inside? && Acting(s.ops[o].session.pc)
    case Forget(o) => o in s.ops && s.ops[o].Inside? && s.ops[o].session.pc.Unmap?
    case Leave(o) => o in s.ops && s.ops[o].Inside? && s.ops[o].session.pc.Ended?
    case Notice(o, id) =>
      o !in s.ops && id in s.world.rows && s.world.rows[id].status == Connected && s.world.rows[id].expires
    case Expire(o, _) => o in s.ops && s.ops[o].Expiring?
  }

  // ----- what each step does to the operation that takes it

  function LookedUp(w: World, request: Request, found: Option<Id>, works: bool): Op
    requires request.Connect?
  {
    if !works || !request.product.ApiKey? then Gone
    else
      match found
      case None => if request.account.Some? then Gone else Preparing(request)
      case Some(id) =>
        if id in w.rows && w.rows[id].product == request.product then Wanting(request, id, false) else Gone
  }

  /** Whether a preparation writes anything: an existing row must agree on having a secret. */
  predicate PrepareWrites(w: World, request: Request, found: Option<Id>, a: Answer)
    requires request.Connect?
  {
    (a.Works? || a.FailsAfter?)
    && (found.Some? ==> found.value in w.rows && RequiresCredential(request.product) == w.rows[found.value].cred.Some?)
  }

  function Prepared(w: World, table: Table, request: Request, found: Option<Id>, a: Answer): World
    requires request.Connect?
  {
    if !PrepareWrites(w, request, found, a) then w
    else
      match found
      case Some(id) => w.(rows := w.rows[id := Repended(w.rows[id])])
      case None => w.(rows := w.rows[table.nextId := NewRow(table.nextId, request.product, request.identity)])
  }

  function ReReads(w: World, op: Op, works: bool): Op
    requires op.Locked?
  {
    if !works || op.id !in w.rows then Gone
    else
      var row := w.rows[op.id];
      var isNew := op.isNew && row.status != Connected;
      Inside(op.lock, Session(op.request, op.id, row, isNew, None, FirstPc(op.request, row, isNew)))
  }

  function NextOp(s: State, step: Step): Op
    requires Enabled(s, step)
  {
    match step
    case Begin(_, request, id) => if request.Connect? then Looking(request) else Wanting(request, id, false)
    case LookUp(o, found, works) => LookedUp(s.world, s.ops[o].request, found, works)
    case Prepare(o, found, a) =>
      if a.Works? && PrepareWrites(s.world, s.ops[o].request, found, a)
      then Wanting(s.ops[o].request, if found.Some? then found.value else s.table.nextId, true) else Gone
    case TakeHandle(o) =>
      var op := s.ops[o];
      if !Admits(s.table.locks, op.id, InUse(s.ops)) then Gone
      else
        Waiting(op.request, op.id, op.isNew, if op.id in s.table.locks then s.table.locks[op.id] else s.table.nextLock)
    case Acquire(o) => Locked(s.ops[o].request, s.ops[o].id, s.ops[o].isNew, s.ops[o].lock)
    case ReRead(o, works) => ReReads(s.world, s.ops[o], works)
    case Act(o, a) =>
      Inside(s.ops[o].lock, After(s.ops[o].session, a, AccountData.Act(s.world, s.ops[o].session, a).pc))
    case Forget(o) => Inside(s.ops[o].lock, s.ops[o].session.(pc := Ended(Removed)))
    case Leave(_) => Gone
    case Notice(_, id) => Expiring(id)
    case Expire(_, _) => Gone
  }

  function NextWorld(s: State, step: Step): World
    requires Enabled(s, step)
  {
    match step
    case Prepare(o, found, a) => Prepared(s.world, s.table, s.ops[o].request, found, a)
    case Act(o, a) => AccountData.Act(s.world, s.ops[o].session, a).world
    case Expire(o, works) =>
      var id := s.ops[o].id;
      if !works || id !in s.world.rows then s.world
      else s.world.(rows := s.world.rows[id := MarkedExpired(s.world.rows[id])])
    case _ => s.world
  }

  function NextTable(s: State, step: Step): Table
    requires Enabled(s, step)
  {
    match step
    case Prepare(_, _, _) => s.table.(nextId := s.table.nextId + 1)
    case TakeHandle(o) =>
      Table(Requested(s.table.locks, s.ops[o].id, InUse(s.ops), s.table.nextLock), s.table.nextId, s.table.nextLock + 1)
    case Forget(o) => s.table.(locks := Released(s.table.locks, s.ops[o].session.id, InUse(s.ops)))
    case _ => s.table
  }

  function Next(s: State, step: Step): State
    requires Enabled(s, step)
  {
    State(NextWorld(s, step), NextTable(s, step), s.ops[step.o := NextOp(s, step)])
  }

  // ----- the invariant

  /** While its row exists, the lock object an operation holds or awaits is the one the map gives out. */
  predicate HandleInv(rows: map<Id, Row>, table: Table, op: Op) {
    && (op.Wanting? ==> op.id < table.nextId)
    && (HasHandle(op) ==>
          && Account(op) < table.nextId && op.lock < table.nextLock
          && (Account(op) in rows ==> Account(op) in table.locks && table.locks[Account(op)] == op.lock))
  }

  ghost predicate OneHolder(ops: map<OpId, Op>) {
    forall o, p :: o in ops && p in ops && Holds(ops[o]) && Holds(ops[p]) && ops[o].lock == ops[p].lock ==> o == p
  }

  ghost predicate TableInv(table: Table) {
    |table.locks| <= MAX_TRACKED_ACCOUNT_LOCKS && forall id :: id in table.locks ==> table.locks[id] < table.nextLock
  }

  ghost predicate LockInv(s: State) {
    && TableInv(s.table) && OneHolder(s.ops)
    && forall o :: o in s.ops ==> HandleInv(s.world.rows, s.table, s.ops[o])
  }

  ghost predicate DataInv(s: State) {
    && StoresInv(s.world) && NamesBelow(s.world, s.table.nextId)
    && forall o :: o in s.ops && s.ops[o].Inside? ==> SessionInv(s.world, s.ops[o].session)
  }

  ghost predicate Inv(s: State) {
    LockInv(s) && DataInv(s)
  }

  /** Two sessions on the same existing row are the same session. */
  lemma SessionsExclude(s: State, o: OpId, p: OpId)
    requires LockInv(s) && o in s.ops && p in s.ops && s.ops[o].Inside? && s.ops[p].Inside?
    requires s.ops[o].session.id == s.ops[p].session.id && s.ops[o].session.id in s.world.rows
    ensures o == p
  {
    assert HandleInv(s.world.rows, s.table, s.ops[o]) && HandleInv(s.world.rows, s.table, s.ops[p]);
  }

  // ----- the data side

  lemma ActKeepsData(s: State, o: OpId, a: Answer)
    requires Inv(s) && Enabled(s, Act(o, a))
    ensures DataInv(Next(s, Act(o, a)))
  {
    var t := s.ops[o].session;
    var r := AccountData.Act(s.world, t, a);
    var n := Next(s, Act(o, a));
    ActKeeps(s.world, t, a);
    ActIsLocal(s.world, t, a);
    SessionHasRow(s.world, t);
    hide StoresInv, SessionInv, LockInv, Acting, AccountData.Act;
    LocalKeepsNames(s.world, r.world, t, s.table.nextId);
    forall p | p in n.ops && n.ops[p].Inside?
      ensures SessionInv(r.world, n.ops[p].session)
    {
      if p != o {
        var u := s.ops[p].session;
        assert SessionInv(s.world, u);
        if u.id == t.id {
          SessionsExclude(s, o, p);
        }
        SeparateFromInv(s.world);
        LocalKeepsOthers(s.world, r.world, t, u);
      }
    }
  }

  lemma SeparateFromInv(w: World)
    requires StoresInv(w)
    ensures RefsSeparate(w)
  {
  }

  lemma SessionHasRow(w: World, t: Session)
    requires SessionInv(w, t) && Acting(t.pc)
    ensures t.id in w.rows && w.rows[t.id].cred == t.seen.cred
  {
  }

  lemma LocalKeepsNames(w: World, v: World, t: Session, next: Id)
    requires NamesBelow(w, next) && Local(w, v, t) && t.id in w.rows && w.rows[t.id].cred == t.seen.cred
    requires t.id in v.rows ==> v.rows[t.id].cred == t.seen.cred
    ensures NamesBelow(v, next)
  {
  }

  lemma PrepareKeepsData(s: State, o: OpId, found: Option<Id>, a: Answer)
    requires Inv(s) && Enabled(s, Prepare(o, found, a))
    ensures DataInv(Next(s, Prepare(o, found, a)))
  {
    hide StoresInv, SessionInv, NamesBelow, FindsIdentity, OneHolder, TableInv, HandleInv;
    if !PrepareWrites(s.world, s.ops[o].request, found, a) {
      NamesGrow(s.world, s.table.nextId);
    } else if found.Some? {
      RependKeepsData(s, o, found.value);
    } else {
      NewRowKeepsData(s, o, s.ops[o].request.product, s.ops[o].request.identity);
    }
  }

  /** The sessions of the other operations, in a world one row of which was rewritten or added. */
  ghost predicate SessionsIn(w: World, ops: map<OpId, Op>, o: OpId) {
    forall p :: p in ops && p != o && ops[p].Inside? ==> SessionInv(w, ops[p].session)
  }

  lemma RependKeepsData(s: State, o: OpId, id: Id)
    requires Inv(s) && id in s.world.rows
    ensures var w := s.world.(rows := s.world.rows[id := Repended(s.world.rows[id])]);
            StoresInv(w) && NamesBelow(w, s.table.nextId + 1) && SessionsIn(w, s.ops, o)
  {
    hide StoresInv, SessionInv, NamesBelow, LockInv;
    var row := Repended(s.world.rows[id]);
    var w := s.world.(rows := s.world.rows[id := row]);
    RewriteKeepsStores(s.world, id, row);
    EditKeepsNames(s.world, s.table.nextId, id, row);
    NamesGrow(w, s.table.nextId);
    forall p | p in s.ops && s.ops[p].Inside?
      ensures SessionInv(w, s.ops[p].session)
    {
      EditKeepsSession(s.world, id, row, s.ops[p].session);
    }
  }

  lemma NewRowKeepsData(s: State, o: OpId, product: Product, identity: nat)
    requires Inv(s)
    ensures var id := s.table.nextId;
            var w := s.world.(rows := s.world.rows[id := NewRow(id, product, identity)]);
            StoresInv(w) && NamesBelow(w, id + 1) && SessionsIn(w, s.ops, o)
  {
    hide StoresInv, SessionInv, NamesBelow, OneHolder, TableInv;
    var id := s.table.nextId;
    var row := NewRow(id, product, identity);
    InsertKeepsStores(s.world, id, product, identity);
    forall p | p in s.ops && s.ops[p].Inside?
      ensures SessionInv(s.world.(rows := s.world.rows[id := row]), s.ops[p].session)
    {
      assert HandleInv(s.world.rows, s.table, s.ops[p]);
      InsertKeepsSession(s.world, id, row, s.ops[p].session);
    }
  }

  lemma NamesGrow(w: World, next: Id)
    requires NamesBelow(w, next)
    ensures NamesBelow(w, next + 1)
  {
  }

  lemma EditKeepsNames(w: World, next: Id, id: Id, row: Row)
    requires NamesBelow(w, next) && id in w.rows && row.cred == w.rows[id].cred
    ensures NamesBelow(w.(rows := w.rows[id := row]), next)
  {
  }

  lemma ExpireKeepsData(s: State, o: OpId, works: bool)
    requires Inv(s) && Enabled(s, Expire(o, works))
    ensures DataInv(Next(s, Expire(o, works)))
  {
    var id, n := s.ops[o].id, Next(s, Expire(o, works));
    hide StoresInv, SessionInv, NamesBelow;
    if works && id in s.world.rows {
      var row := MarkedExpired(s.world.rows[id]);
      RewriteKeepsStores(s.world, id, row);
      EditKeepsNames(s.world, s.table.nextId, id, row);
      forall p | p in n.ops && n.ops[p].Inside?
        ensures SessionInv(n.world, n.ops[p].session)
      {
        EditKeepsSession(s.world, id, row, s.ops[p].session);
      }
    }
  }

  lemma ReReadStarts(w: World, op: Op, works: bool)
    requires op.Locked?
    ensures ReReads(w, op, works).Inside? ==> SessionInv(w, ReReads(w, op, works).session)
  {
  }

  lemma OthersKeepData(s: State, step: Step)
    requires Inv(s) && Enabled(s, step) && !step.Act? && !step.Prepare? && !step.Expire?
    ensures DataInv(Next(s, step))
  {
    if step.Forget? {
      assert SessionInv(s.world, s.ops[step.o].session);
      assert SessionInv(s.world, NextOp(s, step).session);
    }
    if step.ReRead? {
      ReReadStarts(s.world, s.ops[step.o], step.works);
    }
    hide StoresInv, SessionInv, NamesBelow, Finds, LockFree, Acting, ReReads, InUse, LookedUp;
    hide Requested, Released, Admits;
    var n := Next(s, step);
    assert NextOp(s, step).Inside? ==> SessionInv(s.world, NextOp(s, step).session);
  }

  // ----- the lock side

  /** Handles survive when the rows they matter for do, and the map keeps their entries. */
  lemma HandleStays(rows: map<Id, Row>, table: Table, rows': map<Id, Row>, table': Table, op: Op)
    requires HandleInv(rows, table, op) && table.nextId <= table'.nextId && table.nextLock <= table'.nextLock
    requires HasHandle(op) && Account(op) in rows' ==>
               && Account(op) in rows
               && (Account(op) in table.locks && table.locks[Account(op)] == op.lock ==>
                     Account(op) in table'.locks && table'.locks[Account(op)] == op.lock)
    ensures HandleInv(rows', table', op)
  {
  }

  lemma TakeKeepsLocks(s: State, o: OpId)
    requires LockInv(s) && Enabled(s, TakeHandle(o))
    ensures LockInv(Next(s, TakeHandle(o)))
  {
    var op, n := s.ops[o], Next(s, TakeHandle(o));
    RequestKeepsUsed(s.table.locks, op.id, InUse(s.ops), s.table.nextLock);
    hide Requested, Admits;
    assert HandleInv(s.world.rows, s.table, op);
    forall p | p in s.ops && p != o
      ensures HandleInv(s.world.rows, n.table, s.ops[p])
    {
      assert HasHandle(s.ops[p]) ==> s.ops[p].lock in InUse(s.ops);
      HandleStays(s.world.rows, s.table, s.world.rows, n.table, s.ops[p]);
    }
  }

  lemma ForgetKeepsLocks(s: State, o: OpId)
    requires Inv(s) && Enabled(s, Forget(o))
    ensures LockInv(Next(s, Forget(o)))
  {
    var t, n := s.ops[o].session, Next(s, Forget(o));
    ReleaseKeepsOthers(s.table.locks, t.id, InUse(s.ops));
    assert SessionInv(s.world, t) && t.id !in s.world.rows;
    hide Released, StoresInv, NamesBelow, SessionInv, InUse;
    assert HandleInv(s.world.rows, s.table, s.ops[o]);
    forall p | p in s.ops && p != o
      ensures HandleInv(s.world.rows, n.table, s.ops[p])
    {
      HandleStays(s.world.rows, s.table, s.world.rows, n.table, s.ops[p]);
    }
  }

  lemma ActKeepsLocks(s: State, o: OpId, a: Answer)
    requires Inv(s) && Enabled(s, Act(o, a))
    ensures LockInv(Next(s, Act(o, a)))
  {
    var t, n := s.ops[o].session, Next(s, Act(o, a));
    ActIsLocal(s.world, t, a);
    assert forall id :: id in n.world.rows ==> id in s.world.rows;
    hide StoresInv, NamesBelow, SessionInv, Local, Acting, AccountData.Act;
    forall p | p in n.ops
      ensures HandleInv(n.world.rows, s.table, n.ops[p])
    {
      HandleStays(s.world.rows, s.table, n.world.rows, s.table, s.ops[p]);
    }
  }

  lemma PrepareKeepsLocks(s: State, o: OpId, found: Option<Id>, a: Answer)
    requires Inv(s) && Enabled(s, Prepare(o, found, a))
    ensures LockInv(Next(s, Prepare(o, found, a)))
  {
    var n := Next(s, Prepare(o, found, a));
    assert found.Some? ==> found.value < s.table.nextId;
    hide StoresInv, NamesBelow, SessionInv, FindsIdentity;
    forall p | p in n.ops && p != o
      ensures HandleInv(n.world.rows, n.table, n.ops[p])
    {
      HandleStays(s.world.rows, s.table, n.world.rows, n.table, s.ops[p]);
    }
  }

  lemma ExpireKeepsLocks(s: State, o: OpId, works: bool)
    requires LockInv(s) && Enabled(s, Expire(o, works))
    ensures LockInv(Next(s, Expire(o, works)))
  {
    var n := Next(s, Expire(o, works));
    forall p | p in n.ops && p != o
      ensures HandleInv(n.world.rows, n.table, n.ops[p])
    {
      HandleStays(s.world.rows, s.table, n.world.rows, n.table, s.ops[p]);
    }
  }

  lemma OthersKeepLocks(s: State, step: Step)
    requires Inv(s) && Enabled(s, step)
    requires step.Begin? || step.LookUp? || step.Acquire? || step.ReRead? || step.Leave? || step.Notice?
    ensures LockInv(Next(s, step))
  {
    assert step.LookUp? && step.found.Some? && step.found.value in s.world.rows ==> step.found.value < s.table.nextId;
    hide StoresInv, NamesBelow, SessionInv, Finds, InUse, Acting, FirstPc;
    assert step.o in s.ops ==> HandleInv(s.world.rows, s.table, s.ops[step.o]);
    assert HandleInv(s.world.rows, s.table, NextOp(s, step));
  }

  lemma InvKept(s: State, step: Step)
    requires Inv(s) && Enabled(s, step)
    ensures Inv(Next(s, step))
  {
    hide LockInv, DataInv, Next, Enabled;
    match step {
      case Act(o, a) => ActKeepsData(s, o, a); ActKeepsLocks(s, o, a);
      case Prepare(o, found, a) => PrepareKeepsData(s, o, found, a); PrepareKeepsLocks(s, o, found, a);
      case Expire(o, works) => ExpireKeepsData(s, o, works); ExpireKeepsLocks(s, o, works);
      case TakeHandle(o) => OthersKeepData(s, step); TakeKeepsLocks(s, o);
      case Forget(o) => OthersKeepData(s, step); ForgetKeepsLocks(s, o);
      case _ => OthersKeepData(s, step); OthersKeepLocks(s, step);
    }
  }

  // ----- what holds in every run

  /** Any database and secret store to start from in which every secret can be found, and no calls under way. */
  ghost predicate Starts(s: State) {
    s.ops == map[] && s.table.locks == map[] && StoresInv(s.world) && NamesBelow(s.world, s.table.nextId)
  }

  ghost predicate Moves(s: State, n: State) {
    exists step :: Enabled(s, step) && n == Next(s, step)
  }

  ghost predicate MovesAt(run: seq<State>, i: nat)
    requires i + 1 < |run|
  {
    Moves(run[i], run[i + 1])
  }

  ghost predicate IsRun(run: seq<State>) {
    && run != [] && Starts(run[0])
    && forall i :: 0 <= i < |run| - 1 ==> MovesAt(run, i)
  }

  lemma {:induction false} RunInvariant(run: seq<State>, i: nat)
    requires IsRun(run) && i < |run|
    ensures Inv(run[i])
  {
    hide Next, Enabled, StoresInv, NamesBelow;
    if i > 0 {
      hide Inv, Starts;
      RunInvariant(run, i - 1);
      assert MovesAt(run, i - 1);
      var step :| Enabled(run[i - 1], step) && run[i] == Next(run[i - 1], step);
      InvKept(run[i - 1], step);
    }
  }

  /** In every reachable state every stored secret is found from an account row or a cleanup record. */
  lemma EverySecretIsFound(run: seq<State>, i: nat, ref: Ref)
    requires IsRun(run) && i < |run| && ref in run[i].world.secrets
    ensures Found(run[i].world, ref)
  {
    RunInvariant(run, i);
  }

  /** A row disappears only when its secret is already gone and nothing is left to clean up for it. */
  lemma RowsOutliveTheirSecrets(run: seq<State>, i: nat, id: Id)
    requires IsRun(run) && i + 1 < |run| && id in run[i].world.rows && id !in run[i + 1].world.rows
    ensures id !in run[i].world.cleanup
    ensures run[i].world.rows[id].cred.Some? ==> run[i].world.rows[id].cred.value !in run[i].world.secrets
    ensures exists o :: o in run[i].ops && run[i].ops[o].Inside?
                        && run[i].ops[o].session.id == id && run[i].ops[o].session.pc.DeleteRow?
  {
    RunInvariant(run, i);
    assert MovesAt(run, i);
    var step :| Enabled(run[i], step) && run[i + 1] == Next(run[i], step);
    hide Enabled, LockInv, StoresInv, NamesBelow, NextOp, NextTable;
    DeletionStep(run[i], step, id);
  }

  lemma DeletionStep(s: State, step: Step, id: Id)
    requires Enabled(s, step) && id in s.world.rows && id !in NextWorld(s, step).rows
    requires DataInv(s)
    ensures step.Act? && s.ops[step.o].session.id == id && s.ops[step.o].session.pc.DeleteRow?
    ensures id !in s.world.cleanup
    ensures SessionInv(s.world, s.ops[step.o].session) && SecretIs(s.world, s.world.rows[id].cred, None)
  {
    hide StoresInv, NamesBelow, LockFree, Finds, CanFinalize;
    if step.Act? {
      var t := s.ops[step.o].session;
      assert SessionInv(s.world, t);
      OnlyDeleteRowDeletes(s.world, t, step.a, id);
    }
  }

  lemma OnlyDeleteRowDeletes(w: World, t: Session, a: Answer, id: Id)
    requires SessionInv(w, t) && Acting(t.pc) && id in w.rows && id !in AccountData.Act(w, t, a).world.rows
    ensures t.id == id && t.pc.DeleteRow? && id !in w.cleanup && SecretIs(w, w.rows[id].cred, None)
  {
    hide CanFinalize, Untouched, Established;
  }

  /** At most one session per account that still has its row. */
  lemma OneSessionPerAccount(run: seq<State>, i: nat, o: OpId, p: OpId)
    requires IsRun(run) && i < |run| && o in run[i].ops && p in run[i].ops
    requires run[i].ops[o].Inside? && run[i].ops[p].Inside? && run[i].ops[o].session.id == run[i].ops[p].session.id
    ensures run[i].ops[o].session.id in run[i].world.rows ==> o == p
  {
    RunInvariant(run, i);
    if run[i].ops[o].session.id in run[i].world.rows {
      SessionsExclude(run[i], o, p);
    }
  }

  /** The map is bounded, and an entry goes only if nobody holds or awaits its lock, or its row is deleted. */
  lemma LocksInUseStay(run: seq<State>, i: nat, id: Id)
    requires IsRun(run) && i + 1 < |run|
    ensures |run[i + 1].table.locks| <= MAX_TRACKED_ACCOUNT_LOCKS
    ensures id in run[i].table.locks && id !in run[i + 1].table.locks ==>
              run[i].table.locks[id] !in InUse(run[i].ops) || id !in run[i].world.rows
    ensures id in run[i].table.locks && id in run[i + 1].table.locks ==>
              run[i + 1].table.locks[id] == run[i].table.locks[id]
  {
    RunInvariant(run, i);
    RunInvariant(run, i + 1);
    assert MovesAt(run, i);
    var step :| Enabled(run[i], step) && run[i + 1] == Next(run[i], step);
    hide StoresInv, NamesBelow, NextOp, NextWorld, OneHolder, InUse, Finds, LockFree;
    TableStep(run[i], step, id);
  }

  lemma TableStep(s: State, step: Step, id: Id)
    requires Enabled(s, step) && Inv(s)
    ensures var locks := NextTable(s, step).locks;
            && (id in s.table.locks && id !in locks ==> s.table.locks[id] !in InUse(s.ops) || id !in s.world.rows)
            && (id in s.table.locks && id in locks ==> locks[id] == s.table.locks[id])
  {
    if step.TakeHandle? {
      RequestKeepsUsed(s.table.locks, s.ops[step.o].id, InUse(s.ops), s.table.nextLock);
    }
    if step.Forget? {
      ReleaseKeepsOthers(s.table.locks, s.ops[step.o].session.id, InUse(s.ops));
      assert SessionInv(s.world, s.ops[step.o].session);
    }
    hide StoresInv, NamesBelow, OneHolder, InUse, Finds, LockFree, Requested, Released;
  }

  /** A disconnect removes secret and row only after its cleanup and, unless local only, showing the row revoked. */
  lemma DisconnectShowsFirst(run: seq<State>, i: nat, o: OpId)
    requires IsRun(run) && i < |run| && o in run[i].ops && run[i].ops[o].Inside?
    requires var t := run[i].ops[o].session;
             t.request == Disconnect(false) && (t.pc.DeleteSecret? || t.pc.DeleteRow?)
    ensures var t := run[i].ops[o].session; var w := run[i].world;
            && t.id in w.rows && t.id !in w.cleanup
            && (w.rows[t.id].status == Revoked || w.rows[t.id].edits > t.seen.edits)
  {
    RunInvariant(run, i);
    assert SessionInv(run[i].world, run[i].ops[o].session);
  }

  /** A row becomes connected only while the store holds the very credential of the operation that says so. */
  lemma ConnectedMeansStored(run: seq<State>, i: nat, id: Id)
    requires IsRun(run) && i + 1 < |run| && id in run[i + 1].world.rows && run[i + 1].world.rows[id].status == Connected
    requires id in run[i].world.rows ==> run[i].world.rows[id].status != Connected
    ensures exists o :: o in run[i].ops && run[i].ops[o].Inside? && Promotes(run[i].world, run[i].ops[o].session, id)
  {
    RunInvariant(run, i);
    assert MovesAt(run, i);
    var step :| Enabled(run[i], step) && run[i + 1] == Next(run[i], step);
    hide Enabled, LockInv, StoresInv, NamesBelow, NextOp, NextTable, Promotes;
    PromotionStep(run[i], step, id);
  }

  predicate Promotes(w: World, t: Session, id: Id) {
    && t.id == id && id in w.rows && w.rows[id].cred == t.seen.cred
    && match t.pc
       case Finalize(_) => t.request.Connect? && t.seen.cred.Some? && SecretIs(w, t.seen.cred, Some(Key(t.request.key)))
       case Promote(_, _) =>
         && t.heard.Some? && t.heard.value.Provides? && t.heard.value.key.Some? == t.seen.cred.Some?
         && (t.seen.cred.Some? ==> SecretIs(w, t.seen.cred, Some(Key(t.heard.value.key.value))))
       case _ => false
  }

  lemma PromotionStep(s: State, step: Step, id: Id)
    requires Enabled(s, step) && DataInv(s)
    requires id in NextWorld(s, step).rows && NextWorld(s, step).rows[id].status == Connected
    requires id in s.world.rows ==> s.world.rows[id].status != Connected
    ensures step.Act? && Promotes(s.world, s.ops[step.o].session, id)
  {
    hide StoresInv, NamesBelow, LockFree, Finds, FindsIdentity, Promotes;
    if step.Act? {
      assert SessionInv(s.world, s.ops[step.o].session);
      OnlyThesePromote(s.world, s.ops[step.o].session, step.a, id);
    }
  }

  lemma OnlyThesePromote(w: World, t: Session, a: Answer, id: Id)
    requires SessionInv(w, t) && Acting(t.pc)
    requires var v := AccountData.Act(w, t, a).world; id in v.rows && v.rows[id].status == Connected
    requires id in w.rows ==> w.rows[id].status != Connected
    ensures Promotes(w, t, id)
  {
    hide CanFinalize, Untouched, Established;
  }

  // ----- a connect keeps to its product

  /** The request and the account of an operation that has found or prepared one. */
  predicate Targets(op: Op) {
    op.Wanting? || op.Waiting? || op.Locked? || op.Inside?
  }

  function RequestOf(op: Op): Request
    requires Targets(op)
  {
    if op.Inside? then op.session.request else op.request
  }

  function TargetOf(op: Op): Id
    requires Targets(op)
  {
    if op.Inside? then op.session.id else op.id
  }

  /** The row a connect works on is of the product it was asked for, and that one takes API keys. */
  predicate RightProduct(rows: map<Id, Row>, next: Id, op: Op) {
    && (op.Preparing? && op.request.Connect? ==> op.request.product.ApiKey?)
    && (Targets(op) ==> TargetOf(op) < next)
    && (Targets(op) && RequestOf(op).Connect? ==>
          && RequestOf(op).product.ApiKey?
          && (TargetOf(op) in rows ==> rows[TargetOf(op)].product == RequestOf(op).product))
  }

  ghost predicate ProductInv(s: State) {
    forall o :: o in s.ops ==> RightProduct(s.world.rows, s.table.nextId, s.ops[o])
  }

  /** No step gives a row that was there another product, and new rows have new ids. */
  lemma ProductsStay(s: State, step: Step, id: Id)
    requires Inv(s) && Enabled(s, step) && id in NextWorld(s, step).rows && id < s.table.nextId
    ensures id in s.world.rows && NextWorld(s, step).rows[id].product == s.world.rows[id].product
  {
    if step.Act? {
      var t := s.ops[step.o].session;
      assert SessionInv(s.world, t);
      ActIsLocal(s.world, t, step.a);
      ActKeeps(s.world, t, step.a);
      hide StoresInv, NamesBelow, LockInv, Acting, AccountData.Act, PcInv;
    } else {
      hide StoresInv, NamesBelow, SessionInv, LockInv, Finds, LockFree, FindsIdentity;
    }
  }

  lemma RightProductStays(s: State, step: Step, p: OpId)
    requires Inv(s) && Enabled(s, step) && p in s.ops && RightProduct(s.world.rows, s.table.nextId, s.ops[p])
    ensures RightProduct(NextWorld(s, step).rows, NextTable(s, step).nextId, s.ops[p])
  {
    assert NextTable(s, step).nextId >= s.table.nextId by { hide Requested, Released, InUse, Finds, LockFree; }
    if Targets(s.ops[p]) && TargetOf(s.ops[p]) in NextWorld(s, step).rows {
      ProductsStay(s, step, TargetOf(s.ops[p]));
    }
    hide Inv, Enabled, NextWorld, NextTable;
  }

  lemma RightProductMoves(s: State, step: Step)
    requires Inv(s) && ProductInv(s) && Enabled(s, step)
    ensures RightProduct(NextWorld(s, step).rows, NextTable(s, step).nextId, NextOp(s, step))
  {
    if step.o in s.ops {
      RightProductStays(s, step, step.o);
    }
    if step.LookUp? && step.found.Some? && step.found.value in s.world.rows {
      assert step.found.value < s.table.nextId;
    }
    if step.Prepare? && step.found.Some? {
      assert step.found.value < s.table.nextId;
    }
    hide StoresInv, NamesBelow, SessionInv, LockInv, LockFree, InUse, Acting, AccountData.Act, FirstPc;
    hide Requested, Released, Admits;
  }

  lemma ProductKept(s: State, step: Step)
    requires Inv(s) && ProductInv(s) && Enabled(s, step)
    ensures ProductInv(Next(s, step))
  {
    RightProductMoves(s, step);
    forall p | p in s.ops
      ensures RightProduct(NextWorld(s, step).rows, NextTable(s, step).nextId, s.ops[p])
    {
      RightProductStays(s, step, p);
    }
    hide Inv, Enabled, NextWorld, NextTable, NextOp, RightProduct;
  }

  /** In every run a connect only ever works on an account of its own product, and only of one that takes API keys. */
  lemma {:induction false} ConnectsKeepToTheirProduct(run: seq<State>, i: nat)
    requires IsRun(run) && i < |run|
    ensures ProductInv(run[i])
  {
    if i == 0 {
      hide StoresInv, NamesBelow;
    } else {
      hide ProductInv, Next, Enabled, Starts, Inv;
      ConnectsKeepToTheirProduct(run, i - 1);
      RunInvariant(run, i - 1);
      assert MovesAt(run, i - 1);
      var step :| Enabled(run[i - 1], step) && run[i] == Next(run[i - 1], step);
      ProductKept(run[i - 1], step);
    }
  }
}
