/** How a reconnect of an existing account can end, whose key it can destroy, and runs that end badly. */
module AccountOutcomes {
  import opened Common
  import opened AccountData
  import opened AccountLocks
  import opened Accounts
  import opened AccountService

  /** Where a reconnect that read `previous` as the old key can be. */
  predicate OnPath(previous: Option<nat>, pc: Pc) {
    match pc
    case Put(p) => p == previous
    case Finalize(p) => p == previous
    case Rollback(p, _) => p == previous
    case MarkRollback(undo) => undo.previous == previous
    case Drain => true
    case DrainDelete(_) => true
    case DrainForget(_) => true
    case Mark(_, _) => true
    case Ended(outcome) =>
      || outcome in {Succeeded, Failed, RolledBack(previous)}
      || ((outcome.Marked? || outcome.Unmarked?) && outcome.undo.previous == previous)
    case _ => false
  }

  predicate Reconnects(t: Session, previous: Option<nat>) {
    t.request.Connect? && !t.isNew && t.seen.cred.Some? && OnPath(previous, t.pc)
  }

  lemma PathStep(w: World, t: Session, a: Answer, previous: Option<nat>)
    requires Reconnects(t, previous) && Acting(t.pc)
    ensures Reconnects(After(t, a, AccountData.Act(w, t, a).pc), previous)
  {
    hide CanFinalize, PutSecret, DropSecret, SetState;
  }

  predicate SameSession(t: Session, u: Session) {
    t.request == u.request && t.id == u.id && t.seen == u.seen && t.isNew == u.isNew
  }

  predicate Continues(op: Op, t: Session, previous: Option<nat>) {
    op.Gone? || (op.Inside? && SameSession(t, op.session) && Reconnects(op.session, previous))
  }

  lemma ContinuesStep(s: State, step: Step, o: OpId, t: Session, previous: Option<nat>)
    requires Enabled(s, step) && o in s.ops && Continues(s.ops[o], t, previous)
    ensures o in Next(s, step).ops && Continues(Next(s, step).ops[o], t, previous)
  {
    hide Acting, Finds, FindsIdentity, LockFree, InUse, OnPath, NextWorld, NextTable, AccountData.Act;
    if step.Act? && step.o == o {
      PathStep(s.world, s.ops[o].session, step.a, previous);
    }
    PathHasNoUnmap(previous);
  }

  lemma PathHasNoUnmap(previous: Option<nat>)
    ensures !OnPath(previous, Pc.Unmap)
  {
  }

  lemma {:induction false} ContinuesInRun(run: seq<State>, i: nat, j: nat, o: OpId, t: Session, previous: Option<nat>)
    requires IsRun(run) && i <= j < |run| && o in run[i].ops && Continues(run[i].ops[o], t, previous)
    ensures o in run[j].ops && Continues(run[j].ops[o], t, previous)
  {
    hide Next, Enabled, Starts, Continues;
    if i < j {
      ContinuesInRun(run, i, j - 1, o, t, previous);
      assert MovesAt(run, j - 1);
      var step :| Enabled(run[j - 1], step) && run[j] == Next(run[j - 1], step);
      ContinuesStep(run[j - 1], step, o, t, previous);
    }
  }

  /** The promise broken: the old key is gone and the row does not say so. */
  predicate LostUnmarked(w: World, t: Session, key: nat) {
    t.id in w.rows && !IsMarked(w.rows[t.id]) && !SecretIs(w, t.seen.cred, Some(Key(key)))
  }

  /** The calls lost the old key: another one was written, and the rollback did not take effect. */
  predicate CallsLoseKey(t: Session, key: nat, undo: Undo)
    requires t.request.Connect?
  {
    undo.wrote && !undo.restored && t.request.key != key
  }

  /**
   What each of the five ends of a reconnect that has read the old key leaves behind. Whether a failed one
   breaks the promise depends on which of its calls took effect and on rewrites of the row without the lock.
   */
  predicate EndsAs(w: World, t: Session, key: nat, outcome: Outcome)
    requires t.request.Connect?
  {
    && t.id in w.rows && w.rows[t.id].cred == t.seen.cred
    && var row := w.rows[t.id];
       match outcome
       case Succeeded =>
         && SecretIs(w, t.seen.cred, Some(Key(t.request.key))) && t.id !in w.cleanup
         && (row.edits > t.seen.edits || row.status == Connected)
       case Failed => SecretIs(w, t.seen.cred, Some(Key(t.request.key)))
       case RolledBack(previous) =>
         previous == Some(key) && SecretIs(w, t.seen.cred, Some(Key(key))) && Untouched(row, t.seen)
       case Marked(undo, edits) =>
         LostUnmarked(w, t, key) <==> CallsLoseKey(t, key, undo) && row.edits != edits
       case Unmarked(undo) =>
         && Untouched(row, t.seen)
         && (LostUnmarked(w, t, key)
             <==> CallsLoseKey(t, key, undo) && !(IsMarked(t.seen) && row.edits == t.seen.edits))
       case _ => false
  }

  lemma ReconnectEnds(w: World, t: Session, u: Session, key: nat)
    requires t.request.Connect? && SameSession(t, u) && Reconnects(u, Some(key)) && u.pc.Ended? && SessionInv(w, u)
    ensures EndsAs(w, t, key, u.pc.outcome)
  {
  }

  /** In every run a reconnect that has read the old key ends in one of these ways. */
  lemma ReconnectOutcome(run: seq<State>, i: nat, j: nat, o: OpId, key: nat)
    requires IsRun(run) && i <= j < |run|
    requires o in run[i].ops && run[i].ops[o].Inside?
    requires var t := run[i].ops[o].session;
             t.request.Connect? && !t.isNew && t.seen.cred.Some? && t.pc == Put(Some(key))
    requires o in run[j].ops && run[j].ops[o].Inside? && run[j].ops[o].session.pc.Ended?
    ensures var t := run[i].ops[o].session; var w := run[j].world;
            && SecretIs(run[i].world, t.seen.cred, Some(Key(key)))
            && t.id in run[i].world.rows && Untouched(run[i].world.rows[t.id], t.seen)
            && EndsAs(w, t, key, run[j].ops[o].session.pc.outcome)
  {
    var t := run[i].ops[o].session;
    RunInvariant(run, i);
    RunInvariant(run, j);
    ContinuesInRun(run, i, j, o, t, Some(key));
    assert SessionInv(run[i].world, t) && SessionInv(run[j].world, run[j].ops[o].session);
    hide IsRun, LockInv, StoresInv, NamesBelow, EndsAs;
    ReconnectEnds(run[j].world, t, run[j].ops[o].session, key);
  }

  predicate FailedWrite(pc: Pc) {
    pc.Ended? && (pc.outcome.RolledBack? || pc.outcome.Marked? || pc.outcome.Unmarked?)
  }

  /** The way back of a reconnect, played to its end: what is stored then, and what is marked. */
  lemma UndoPlayed(w: World, t: Session, key: nat, wrote: bool, answers: nat -> Answer, k: nat)
    requires t.request.Connect? && !t.isNew && t.seen.cred.Some? && t.pc == Rollback(Some(key), wrote)
    requires t.id in w.rows && w.rows[t.id] == t.seen
    requires SecretIs(w, t.seen.cred, Some(Key(if wrote then t.request.key else key)))
    ensures var r := Play(w, t, answers, k);
            && FailedWrite(r.pc)
            && (LostUnmarked(r.world, t, key)
                <==> && t.request.key != key && wrote && !TakesEffect(answers(k))
                     && !answers(k + 1).Works? && !IsMarked(t.seen))
  {
    hide Play, CanFinalize;
    Played(w, t, answers, k);
    var first := ActConnect(w, t, answers(k));
    var u := t.(pc := first.pc);
    if answers(k).Works? {
      PlayedOut(first.world, u, answers, k + 1);
    } else {
      Played(first.world, u, answers, k + 1);
      var second := ActConnect(first.world, u, answers(k + 1));
      PlayedOut(second.world, u.(pc := second.pc), answers, k + 2);
    }
  }

  /**
   Left to itself, a reconnect loses the old key without a mark if and only if its key is another one and got
   written, then the secret write or the metadata write failed, the rollback took no effect, and marking failed
   on a row that was not marked before.
   */
  lemma PlayLosesKeyExactly(w: World, t: Session, answers: nat -> Answer, k: nat, key: nat)
    requires t.pc == Put(Some(key)) && t.request.Connect? && !t.isNew && t.seen.cred.Some?
    requires SessionInv(w, t) && w.rows[t.id] == t.seen
    ensures var r := Play(w, t, answers, k);
            var put, finalize := answers(k), answers(k + 1);
            var finalized := finalize.Works? && CanFinalize(w, t.id, t.request.product, t.request.identity);
            FailedWrite(r.pc) && LostUnmarked(r.world, t, key)
            <==> && t.request.key != key && !IsMarked(t.seen)
                 && (if put.Works? then !finalized && !TakesEffect(answers(k + 2)) && !answers(k + 3).Works?
                     else put.FailsAfter? && !TakesEffect(answers(k + 1)) && !answers(k + 2).Works?)
  {
    hide Play;
    Played(w, t, answers, k);
    var first := ActConnect(w, t, answers(k));
    var u := t.(pc := first.pc);
    if !answers(k).Works? {
      hide CanFinalize;
      UndoPlayed(first.world, u, key, TakesEffect(answers(k)), answers, k + 1);
      LostIgnoresPc(t, u, key);
    } else {
      Played(first.world, u, answers, k + 1);
      var second := ActConnect(first.world, u, answers(k + 1));
      var v := u.(pc := second.pc);
      assert CanFinalize(first.world, t.id, t.request.product, t.request.identity)
          == CanFinalize(w, t.id, t.request.product, t.request.identity);
      hide CanFinalize;
      if second.pc.Drain? {
        DrainsToItsEnd(second.world, v, answers, k + 2);
      } else {
        UndoPlayed(second.world, v, key, true, answers, k + 2);
        LostIgnoresPc(t, v, key);
      }
    }
  }

  lemma LostIgnoresPc(t: Session, u: Session, key: nat)
    requires SameSession(t, u)
    ensures forall w :: LostUnmarked(w, t, key) <==> LostUnmarked(w, u, key)
  {
  }

  /** Once the metadata is written, a connect does not end in a rollback. */
  lemma {:induction false} DrainsToItsEnd(w: World, t: Session, answers: nat -> Answer, k: nat)
    requires t.request.Connect? && (Draining(t.pc) || t.pc.Mark? || t.pc in {Ended(Succeeded), Ended(Failed)})
    ensures !FailedWrite(Play(w, t, answers, k).pc)
    decreases CallsLeft(t.pc)
  {
    hide Play;
    if t.pc.Ended? {
      PlayedOut(w, t, answers, k);
    } else {
      Played(w, t, answers, k);
      EveryCallCounts(w, t, answers(k));
      var r := AccountData.Act(w, t, answers(k));
      DrainsToItsEnd(r.world, After(t, answers(k), r.pc), answers, k + 1);
    }
  }

  // ----- keys of other callers

  /** A connect that treats its account as existing: from the re-read on, the key found there is there or was read. */
  predicate Guards(w: World, t: Session, key: nat) {
    && t.request.Connect? && !t.isNew && t.seen.cred.Some?
    && (OnPath(Some(key), t.pc)
        || ((t.pc.GetOld? || t.pc == Ended(Refused)) && SecretIs(w, t.seen.cred, Some(Key(key)))))
  }

  lemma GuardsByAct(w: World, t: Session, a: Answer, key: nat)
    requires Guards(w, t, key) && Acting(t.pc)
    ensures var r := AccountData.Act(w, t, a); Guards(r.world, After(t, a, r.pc), key)
  {
    if t.pc.GetOld? {
      hide CanFinalize, PutSecret, DropSecret, SetState;
    } else {
      PathStep(w, t, a, Some(key));
    }
  }

  predicate GuardsOrGone(w: World, op: Op, t: Session, key: nat) {
    op.Gone? || (op.Inside? && SameSession(t, op.session) && Guards(w, op.session, key))
  }

  lemma GuardsByOthers(w: World, v: World, u: Session, key: nat)
    requires Guards(w, u, key) && SameFor(w, v, u) && u.id in w.rows && w.rows[u.id].cred == u.seen.cred
    ensures Guards(v, u, key)
  {
    hide OnPath;
  }

  lemma GuardsStep(s: State, step: Step, o: OpId, t: Session, key: nat)
    requires Inv(s) && Enabled(s, step) && o in s.ops && GuardsOrGone(s.world, s.ops[o], t, key)
    ensures o in Next(s, step).ops && GuardsOrGone(Next(s, step).world, Next(s, step).ops[o], t, key)
  {
    if s.ops[o].Inside? {
      var u := s.ops[o].session;
      assert SessionInv(s.world, u);
      GuardsHasRow(s.world, u, key);
      PathHasNoUnmap(Some(key));
      if step.Act? && step.o == o {
        GuardsByAct(s.world, u, step.a, key);
      } else {
        if step.Act? {
          OtherActIsSame(s, step.o, step.a, o);
        } else {
          SecretsStay(s, step);
        }
        hide LockInv, DataInv, Acting, Finds, FindsIdentity, LockFree, InUse, OnPath, NextTable;
        hide AccountData.Act, SessionInv;
        if step.Act? {
          GuardsByOthers(s.world, Next(s, step).world, u, key);
        }
      }
    }
    hide LockInv, DataInv, Acting, Finds, FindsIdentity, LockFree, InUse, Guards, NextTable;
    hide AccountData.Act, SessionInv;
  }

  lemma GuardsHasRow(w: World, u: Session, key: nat)
    requires Guards(w, u, key) && SessionInv(w, u)
    ensures u.id in w.rows && w.rows[u.id].cred == u.seen.cred
  {
  }

  lemma SecretsStay(s: State, step: Step)
    requires Enabled(s, step) && !step.Act?
    ensures Next(s, step).world.secrets == s.world.secrets
  {
  }

  lemma OtherActIsSame(s: State, p: OpId, a: Answer, o: OpId)
    requires Inv(s) && Enabled(s, Act(p, a)) && o in s.ops && s.ops[o].Inside? && o != p
    requires s.ops[o].session.id in s.world.rows
    ensures SameFor(s.world, AccountData.Act(s.world, s.ops[p].session, a).world, s.ops[o].session)
  {
    var t, u := s.ops[p].session, s.ops[o].session;
    assert SessionInv(s.world, t);
    ActIsLocal(s.world, t, a);
    SessionHasRow(s.world, t);
    SeparateFromInv(s.world);
    hide StoresInv, SessionInv, NamesBelow, Acting, AccountData.Act;
    if t.id == u.id {
      SessionsExclude(s, o, p);
    }
    LocalIsSame(s.world, AccountData.Act(s.world, t, a).world, t, u);
  }

  lemma {:induction false} GuardsInRun(run: seq<State>, i: nat, j: nat, o: OpId, t: Session, key: nat)
    requires IsRun(run) && i <= j < |run| && o in run[i].ops && GuardsOrGone(run[i].world, run[i].ops[o], t, key)
    ensures o in run[j].ops && GuardsOrGone(run[j].world, run[j].ops[o], t, key)
  {
    hide Next, Enabled, Starts, GuardsOrGone, Inv;
    if i < j {
      GuardsInRun(run, i, j - 1, o, t, key);
      RunInvariant(run, j - 1);
      assert MovesAt(run, j - 1);
      var step :| Enabled(run[j - 1], step) && run[j] == Next(run[j - 1], step);
      GuardsStep(run[j - 1], step, o, t, key);
    }
  }

  lemma GuardedIsStored(w: World, t: Session, key: nat)
    requires Guards(w, t, key) && SessionInv(w, t)
    ensures t.seen.cred.value in w.secrets
  {
  }

  /** A connect has just re-read its row, and a readable key is stored for it. */
  predicate Begins(s: State, o: OpId, key: nat) {
    && o in s.ops && s.ops[o].Inside? && s.ops[o].session.request.Connect? && s.ops[o].session.seen.cred.Some?
    && s.ops[o].session.pc == FirstPc(s.ops[o].session.request, s.ops[o].session.seen, s.ops[o].session.isNew)
    && SecretIs(s.world, s.ops[o].session.seen.cred, Some(Key(key)))
  }

  /** Some continuation takes this session to a point where nothing is stored for its account any more. */
  ghost predicate CanDestroy(run: seq<State>, o: OpId)
    requires run != [] && o in run[|run| - 1].ops && run[|run| - 1].ops[o].Inside?
  {
    exists more :: Destroys(run, more, o)
  }

  ghost predicate Destroys(run: seq<State>, more: seq<State>, o: OpId)
    requires run != [] && o in run[|run| - 1].ops && run[|run| - 1].ops[o].Inside?
  {
    var t := run[|run| - 1].ops[o].session;
    && IsRun(more) && run <= more && o in more[|more| - 1].ops && more[|more| - 1].ops[o].Inside?
    && SameSession(t, more[|more| - 1].ops[o].session)
    && t.seen.cred.Some? && t.seen.cred.value !in more[|more| - 1].world.secrets
  }

  /** A connect that treats the account as existing never leaves it without a key. */
  lemma FoundKeysSurvive(run: seq<State>, more: seq<State>, o: OpId, key: nat)
    requires IsRun(run) && Begins(run[|run| - 1], o, key) && !run[|run| - 1].ops[o].session.isNew
    ensures !Destroys(run, more, o)
  {
    var t, i := run[|run| - 1].ops[o].session, |run| - 1;
    if Destroys(run, more, o) {
      var j := |more| - 1;
      assert more[i] == run[i];
      GuardsInRun(more, i, j, o, t, key);
      RunInvariant(more, j);
      assert SessionInv(more[j].world, more[j].ops[o].session);
      GuardedIsStored(more[j].world, more[j].ops[o].session, key);
    }
  }

  /** One that treats it as new does so when its own write fails. */
  lemma NewAccountsAreDiscarded(run: seq<State>, o: OpId, key: nat)
    requires IsRun(run) && Begins(run[|run| - 1], o, key) && run[|run| - 1].ops[o].session.isNew
    ensures CanDestroy(run, o)
  {
    var s := run[|run| - 1];
    hide IsRun;
    var more, n := Call(run, s, o, FailsBefore);
    assert n.ops[o].session.pc == Rollback(None, false);
    more, n := Call(more, n, o, Works);
    assert Destroys(run, more, o);
  }

  /**
   For every run: a connect that re-reads its row while a readable key is stored can destroy that key, leaving
   nothing in its place, if and only if it prepared the row itself and does not find it connected.
   */
  lemma DestroysExactly(run: seq<State>, o: OpId, key: nat, next: seq<State>)
    requires IsRun(run) && o in run[|run| - 1].ops && run[|run| - 1].ops[o].Locked?
    requires var s := run[|run| - 1]; var op := s.ops[o];
             && op.request.Connect? && op.id in s.world.rows && s.world.rows[op.id].cred.Some?
             && SecretIs(s.world, s.world.rows[op.id].cred, Some(Key(key)))
             && next == run + [Next(s, ReRead(o, true))]
    ensures IsRun(next) && Begins(next[|next| - 1], o, key)
    ensures CanDestroy(next, o) <==>
              run[|run| - 1].ops[o].isNew && run[|run| - 1].world.rows[run[|run| - 1].ops[o].id].status != Connected
  {
    var s := run[|run| - 1];
    var more, n := Take(run, s, ReRead(o, true));
    assert more == next;
    hide IsRun;
    if n.ops[o].session.isNew {
      NewAccountsAreDiscarded(next, o, key);
    } else {
      forall longer
        ensures !Destroys(next, longer, o)
      {
        FoundKeysSurvive(next, longer, o, key);
      }
    }
  }

  // ----- runs that end badly

  lemma Take(run: seq<State>, s: State, step: Step) returns (more: seq<State>, n: State)
    requires IsRun(run) && run[|run| - 1] == s && Enabled(s, step)
    ensures IsRun(more) && run <= more && more == run + [n] && more[|more| - 1] == n == Next(s, step)
  {
    n := Next(s, step);
    assert Moves(s, n);
    hide Starts, Moves, Next, Enabled;
    more := run + [n];
    forall i | 0 <= i < |more| - 1
      ensures MovesAt(more, i)
    {
      assert i < |run| - 1 ==> MovesAt(run, i);
    }
  }

  /** From an unlocked request to a session, when the account is there and nobody else is. */
  lemma Enter(run: seq<State>, s: State, o: OpId, request: Request, id: Id, isNew: bool)
    returns (more: seq<State>, n: State)
    requires IsRun(run) && run[|run| - 1] == s && o in s.ops && s.ops[o] == Wanting(request, id, isNew)
    requires id in s.world.rows && |s.table.locks| < MAX_TRACKED_ACCOUNT_LOCKS
    requires (id in s.table.locks ==> LockFree(s.ops, s.table.locks[id])) && LockFree(s.ops, s.table.nextLock)
    ensures IsRun(more) && run <= more && more[|more| - 1] == n
    ensures n.world == s.world && n.table.nextId == s.table.nextId
    ensures |n.table.locks| <= |s.table.locks| + 1
    ensures n.ops.Keys == s.ops.Keys && forall p :: p in s.ops && p != o ==> n.ops[p] == s.ops[p]
    ensures var row := s.world.rows[id]; var first := isNew && row.status != Connected;
            n.ops[o].Inside? && n.ops[o].session == Session(request, id, row, first, None, FirstPc(request, row, first))
  {
    hide FirstPc, Starts, InUse, MovesAt;
    more, n := Take(run, s, TakeHandle(o));
    more, n := Take(more, n, Acquire(o));
    more, n := Take(more, n, ReRead(o, true));
  }

  /** One store call of a session. */
  lemma Call(run: seq<State>, s: State, o: OpId, a: Answer) returns (more: seq<State>, n: State)
    requires IsRun(run) && run[|run| - 1] == s && o in s.ops && s.ops[o].Inside? && Acting(s.ops[o].session.pc)
    ensures IsRun(more) && run <= more && more[|more| - 1] == n && n.ops.Keys == s.ops.Keys && n.table == s.table
    ensures forall p :: p in s.ops && p != o ==> n.ops[p] == s.ops[p]
    ensures var r := AccountData.Act(s.world, s.ops[o].session, a);
            n.world == r.world && n.ops[o].Inside? && n.ops[o].session == After(s.ops[o].session, a, r.pc)
  {
    hide IsRun, Acting, AccountData.Act;
    more, n := Take(run, s, Act(o, a));
  }

  function Existing(key: nat): World {
    World(map[0 := Row(ApiKey(0), 0, Some(OfAccount(0)), Connected, NoCode, false, 0)], map[],
          map[OfAccount(0) := Key(key)])
  }

  lemma ExistingStarts(key: nat)
    ensures Starts(State(Existing(key), Table(map[], 1, 0), map[]))
  {
    assert Found(Existing(key), OfAccount(0)) by {
      assert 0 in Existing(key).rows;
    }
  }

  /** Wherever a reconnect is about to write its key, three failing calls leave the new key and no mark. */
  lemma LoseOldKey(run: seq<State>, s: State, o: OpId, oldKey: nat) returns (more: seq<State>, n: State)
    requires IsRun(run) && run[|run| - 1] == s && o in s.ops && s.ops[o].Inside?
    requires var t := s.ops[o].session; t.pc == Put(Some(oldKey)) && t.request.Connect? && t.seen.cred.Some? && !t.isNew
    ensures IsRun(more) && run <= more && more[|more| - 1] == n && o in n.ops && n.ops[o].Inside?
    ensures var t := s.ops[o].session;
            && n.ops[o].session == t.(pc := Ended(Unmarked(Undo(Some(oldKey), true, false))))
            && n.world == s.world.(secrets := s.world.secrets[t.seen.cred.value := Key(t.request.key)])
  {
    hide IsRun;
    more, n := Call(run, s, o, FailsAfter);
    assert n.ops[o].session.pc == Rollback(Some(oldKey), true);
    more, n := Call(more, n, o, FailsBefore);
    assert n.ops[o].session.pc == MarkRollback(Undo(Some(oldKey), true, false));
    more, n := Call(more, n, o, FailsBefore);
  }

  lemma ReachLock(oldKey: nat, request: Request) returns (run: seq<State>, s: State)
    requires request.Connect? && request.product == ApiKey(0) && request.account == Some(0)
    ensures IsRun(run) && run[|run| - 1] == s
    ensures s == State(Existing(oldKey), Table(map[], 1, 0), map[0 := Wanting(request, 0, false)])
  {
    s := State(Existing(oldKey), Table(map[], 1, 0), map[]);
    ExistingStarts(oldKey);
    run := [s];
    hide Starts, MovesAt;
    run, s := Take(run, s, Begin(0, request, 0));
    hide IsRun;
    run, s := Take(run, s, LookUp(0, Some(0), true));
  }

  lemma ReachPut(oldKey: nat, request: Request) returns (run: seq<State>, s: State)
    requires request.Connect? && request.product == ApiKey(0) && request.account == Some(0)
    ensures IsRun(run) && run[|run| - 1] == s && s.world == Existing(oldKey) && 0 in s.ops && s.ops[0].Inside?
    ensures s.ops[0].session == Session(request, 0, Existing(oldKey).rows[0], false, None, Put(Some(oldKey)))
  {
    hide IsRun, Next, Enabled;
    run, s := ReachLock(oldKey, request);
    run, s := Enter(run, s, 0, request, 0, false);
    assert s.ops[0].session.pc == GetOld;
    run, s := Call(run, s, 0, Works);
  }

  /** The secret write fails after taking effect, the rollback fails, marking the row fails: nothing tells. */
  lemma OldKeyCanBeLostUnmarked(oldKey: nat, key: nat) returns (run: seq<State>, end: State)
    requires oldKey != key
    ensures IsRun(run) && run[|run| - 1] == end && end.world == Existing(key)
    ensures 0 in end.ops && end.ops[0].Inside?
    ensures end.ops[0].session.pc == Ended(Unmarked(Undo(Some(oldKey), true, false)))
    ensures LostUnmarked(end.world, end.ops[0].session, oldKey)
  {
    hide IsRun;
    run, end := ReachPut(oldKey, Connect(ApiKey(0), 5, key, Some(0)));
    run, end := LoseOldKey(run, end, 0, oldKey);
  }

  // ----- a late preparation

  const SAME: Request := Connect(ApiKey(0), 5, 7, None)

  function Fresh(status: Status, code: Code, edits: nat): Row {
    Row(ApiKey(0), 5, Some(OfAccount(1)), status, code, false, edits)
  }

  /** A new account's key is written and the row connected. */
  lemma Succeed(run: seq<State>, s: State, o: OpId, request: Request, id: Id, row: Row, isNew: bool)
    returns (more: seq<State>, n: State)
    requires IsRun(run) && run[|run| - 1] == s && o in s.ops && s.ops[o].Inside?
    requires s.ops[o].session == Session(request, id, row, isNew, None, Put(None)) && request.Connect? && row.cred.Some?
    requires id in s.world.rows && s.world.rows[id] == row && id !in s.world.cleanup
    requires CanFinalize(s.world, id, request.product, request.identity)
    ensures IsRun(more) && run <= more && more[|more| - 1] == n && n.ops == s.ops[o := Gone] && n.table == s.table
    ensures n.world.rows == s.world.rows[id := Finalized(row, request.identity)]
    ensures n.world.cleanup == s.world.cleanup && n.world.secrets == s.world.secrets[row.cred.value := Key(request.key)]
  {
    hide IsRun;
    more, n := Call(run, s, o, Works);
    assert n.ops[o].session.pc == Finalize(None) && CanFinalize(n.world, id, request.product, request.identity);
    hide CanFinalize;
    more, n := Call(more, n, o, Works);
    more, n := DrainNothing(more, n, o);
  }

  /** There is nothing to clean up, and the connect returns. */
  lemma DrainNothing(run: seq<State>, s: State, o: OpId) returns (more: seq<State>, n: State)
    requires IsRun(run) && run[|run| - 1] == s && o in s.ops && s.ops[o].Inside?
    requires s.ops[o].session.pc == Drain && s.ops[o].session.request.Connect?
    requires s.ops[o].session.id !in s.world.cleanup
    ensures IsRun(more) && run <= more && more[|more| - 1] == n
    ensures n == State(s.world, s.table, s.ops[o := Gone])
  {
    hide IsRun;
    more, n := Call(run, s, o, Works);
    assert n.ops[o].session.pc == Ended(Succeeded);
    more, n := Leaves(more, n, o);
  }

  /** A supposedly new account's key cannot be written: secret and row go. */
  lemma Discard(run: seq<State>, s: State, o: OpId, request: Request, id: Id, row: Row)
    returns (more: seq<State>, n: State)
    requires IsRun(run) && run[|run| - 1] == s && o in s.ops && s.ops[o].Inside?
    requires s.ops[o].session == Session(request, id, row, true, None, Put(None)) && request.Connect? && row.cred.Some?
    requires id in s.world.rows && id !in s.world.cleanup
    ensures IsRun(more) && run <= more && more[|more| - 1] == n
    ensures n.world.rows == s.world.rows - {id} && n.world.secrets == s.world.secrets - {row.cred.value}
  {
    hide IsRun, CanFinalize;
    more, n := Call(run, s, o, FailsBefore);
    assert n.ops[o].session.pc == Rollback(None, false);
    more, n := Call(more, n, o, Works);
    assert n.ops[o].session.pc == DeleteRow;
    more, n := Call(more, n, o, Works);
  }

  /** Two callers with the same key both find no account; the first one connects. */
  lemma FirstConnects() returns (run: seq<State>, s: State)
    ensures IsRun(run) && run != [] && run[|run| - 1] == s && |s.table.locks| <= 1
    ensures s.world == World(map[1 := Fresh(Connected, NoCode, 0)], map[], map[OfAccount(1) := Key(7)])
    ensures s.ops == map[0 := Gone, 1 := Preparing(SAME)]
  {
    hide IsRun;
    run, s := FirstEnters();
    run, s := Succeed(run, s, 0, SAME, 1, Fresh(Error, AccessPending, 0), true);
  }

  lemma FirstEnters() returns (run: seq<State>, s: State)
    ensures IsRun(run) && run != [] && run[|run| - 1] == s && |s.table.locks| <= 1
    ensures s.world == World(map[1 := Fresh(Error, AccessPending, 0)], map[], map[])
    ensures s.ops.Keys == {0, 1} && s.ops[0].Inside? && s.ops[1] == Preparing(SAME)
    ensures s.ops[0].session == Session(SAME, 1, Fresh(Error, AccessPending, 0), true, None, Put(None))
  {
    run, s := BothLook();
    assert LockFree(s.ops, 0);
    assert FirstPc(SAME, Fresh(Error, AccessPending, 0), true) == Put(None);
    hide IsRun, Next, Enabled, LockFree, CanFinalize, FirstPc;
    run, s := Enter(run, s, 0, SAME, 1, true);
  }

  /**
   The second caller prepares only now: the connected row is set back to pending, the re-read under the lock
   takes it for new, and when its own write fails the first caller's key and account are gone.
   */
  lemma LatePreparationDestroys() returns (run: seq<State>, i: nat)
    ensures IsRun(run) && i < |run|
    ensures run[i].world == World(map[1 := Fresh(Connected, NoCode, 0)], map[], map[OfAccount(1) := Key(7)])
    ensures run[i].ops == map[0 := Gone, 1 := Preparing(SAME)]
    ensures run[|run| - 1].world.rows == map[] && run[|run| - 1].world.secrets == map[]
  {
    var s;
    hide IsRun;
    run, s := FirstConnects();
    i := |run| - 1;
    run, s := Repend(run, s);
    run, s := SecondDiscards(run, s, Fresh(Error, AccessPending, 1));
  }

  /** The second caller takes the row for new, cannot write its key, and removes what is there. */
  lemma SecondDiscards(run: seq<State>, s: State, row: Row) returns (more: seq<State>, n: State)
    requires IsRun(run) && run[|run| - 1] == s && 1 in s.ops && s.ops[1] == Wanting(SAME, 1, true)
    requires s.world == World(map[1 := row], map[], map[OfAccount(1) := Key(7)])
    requires row.cred == Some(OfAccount(1)) && row.status != Connected
    requires |s.table.locks| < MAX_TRACKED_ACCOUNT_LOCKS && forall lock :: LockFree(s.ops, lock)
    ensures IsRun(more) && run <= more && more[|more| - 1] == n && n.world.rows == map[] && n.world.secrets == map[]
  {
    assert FirstPc(SAME, row, true) == Put(None);
    hide IsRun, LockFree, FirstPc;
    more, n := Enter(run, s, 1, SAME, 1, true);
    more, n := Discard(more, n, 1, SAME, 1, row);
  }

  lemma Repend(run: seq<State>, s: State) returns (more: seq<State>, n: State)
    requires IsRun(run) && run[|run| - 1] == s && s.ops == map[0 := Gone, 1 := Preparing(SAME)]
    requires s.world == World(map[1 := Fresh(Connected, NoCode, 0)], map[], map[OfAccount(1) := Key(7)])
    ensures IsRun(more) && run <= more && more[|more| - 1] == n && n.table.locks == s.table.locks
    ensures n.world == World(map[1 := Fresh(Error, AccessPending, 1)], map[], map[OfAccount(1) := Key(7)])
    ensures n.ops == map[0 := Gone, 1 := Wanting(SAME, 1, true)] && forall lock :: LockFree(n.ops, lock)
  {
    hide IsRun;
    more, n := Take(run, s, Prepare(1, Some(1), Works));
  }

  lemma BothLook() returns (run: seq<State>, s: State)
    ensures IsRun(run) && run[|run| - 1] == s
    ensures s == State(World(map[1 := Fresh(Error, AccessPending, 0)], map[], map[]), Table(map[], 2, 0),
                       map[0 := Wanting(SAME, 1, true), 1 := Preparing(SAME)])
  {
    hide IsRun;
    run, s := BothBegin();
    run, s := LooksInVain(run, s, 0);
    run, s := LooksInVain(run, s, 1);
    assert s.ops == map[0 := Preparing(SAME), 1 := Preparing(SAME)];
    run, s := FirstPrepares(run, s);
  }

  const NOTHING: World := World(map[], map[], map[])

  lemma BothBegin() returns (run: seq<State>, s: State)
    ensures IsRun(run) && run[|run| - 1] == s
    ensures s == State(NOTHING, Table(map[], 1, 0), map[0 := Looking(SAME), 1 := Looking(SAME)])
  {
    s := State(NOTHING, Table(map[], 1, 0), map[]);
    assert Starts(s);
    run := [s];
    hide Starts, MovesAt;
    run, s := Take(run, s, Begin(0, SAME, 0));
    hide IsRun;
    run, s := Take(run, s, Begin(1, SAME, 0));
  }

  lemma LooksInVain(run: seq<State>, s: State, o: OpId) returns (more: seq<State>, n: State)
    requires IsRun(run) && run[|run| - 1] == s && s.world == NOTHING && o in s.ops && s.ops[o] == Looking(SAME)
    ensures IsRun(more) && run <= more && more[|more| - 1] == n
    ensures n == State(s.world, s.table, s.ops[o := Preparing(SAME)])
  {
    hide IsRun;
    more, n := Take(run, s, LookUp(o, None, true));
  }

  lemma FirstPrepares(run: seq<State>, s: State) returns (more: seq<State>, n: State)
    requires IsRun(run) && run[|run| - 1] == s
    requires s == State(NOTHING, Table(map[], 1, 0), map[0 := Preparing(SAME), 1 := Preparing(SAME)])
    ensures IsRun(more) && run <= more && more[|more| - 1] == n
    ensures n == State(World(map[1 := Fresh(Error, AccessPending, 0)], map[], map[]), Table(map[], 2, 0),
                       map[0 := Wanting(SAME, 1, true), 1 := Preparing(SAME)])
  {
    hide IsRun;
    more, n := Take(run, s, Prepare(0, None, Works));
  }

  /** The second caller prepares the row, the first one finds it and waits for nobody. */
  lemma OnePreparesOneFinds() returns (run: seq<State>, s: State)
    ensures IsRun(run) && run != [] && run[|run| - 1] == s
    ensures s == State(World(map[1 := Fresh(Error, AccessPending, 0)], map[], map[]), Table(map[], 2, 0),
                       map[0 := Wanting(SAME, 1, false), 1 := Wanting(SAME, 1, true)])
  {
    s := State(World(map[], map[], map[]), Table(map[], 1, 0), map[]);
    assert Starts(s);
    run := [s];
    hide Starts, MovesAt;
    run, s := Take(run, s, Begin(1, SAME, 0));
    run, s := Take(run, s, LookUp(1, None, true));
    assert s == State(World(map[], map[], map[]), Table(map[], 1, 0), map[1 := Preparing(SAME)]);
    hide IsRun;
    run, s := Take(run, s, Prepare(1, None, Works));
    assert s == State(World(map[1 := Fresh(Error, AccessPending, 0)], map[], map[]), Table(map[], 2, 0),
                      map[1 := Wanting(SAME, 1, true)]);
    run, s := FindsIt(run, s);
  }

  lemma FindsIt(run: seq<State>, s: State) returns (more: seq<State>, n: State)
    requires IsRun(run) && run != [] && run[|run| - 1] == s
    requires s == State(World(map[1 := Fresh(Error, AccessPending, 0)], map[], map[]), Table(map[], 2, 0),
                        map[1 := Wanting(SAME, 1, true)])
    ensures IsRun(more) && run <= more && more[|more| - 1] == n
    ensures n == State(s.world, s.table, map[0 := Wanting(SAME, 1, false), 1 := Wanting(SAME, 1, true)])
  {
    hide IsRun;
    more, n := Take(run, s, Begin(0, SAME, 0));
    more, n := Take(more, n, LookUp(0, Some(1), true));
  }

  lemma FinderEnters() returns (run: seq<State>, s: State)
    ensures IsRun(run) && run != [] && run[|run| - 1] == s && |s.table.locks| <= 1 && s.table.nextId == 2
    ensures s.world == World(map[1 := Fresh(Error, AccessPending, 0)], map[], map[])
    ensures s.ops.Keys == {0, 1} && s.ops[0].Inside? && s.ops[1] == Wanting(SAME, 1, true)
    ensures s.ops[0].session == Session(SAME, 1, Fresh(Error, AccessPending, 0), false, None, Put(None))
  {
    run, s := OnePreparesOneFinds();
    assert LockFree(s.ops, 0);
    assert FirstPc(SAME, Fresh(Error, AccessPending, 0), false) == GetOld;
    hide IsRun, Next, Enabled, LockFree, CanFinalize, FirstPc;
    run, s := Enter(run, s, 0, SAME, 1, false);
    run, s := Call(run, s, 0, Works);
  }

  /** The first caller connects the row it found. */
  lemma FinderConnects() returns (run: seq<State>, s: State)
    ensures IsRun(run) && run != [] && run[|run| - 1] == s && |s.table.locks| <= 1 && s.table.nextId == 2
    ensures s.world == World(map[1 := Fresh(Connected, NoCode, 0)], map[], map[OfAccount(1) := Key(7)])
    ensures s.ops == map[0 := Gone, 1 := Wanting(SAME, 1, true)]
  {
    hide IsRun;
    run, s := FinderEnters();
    run, s := Succeed(run, s, 0, SAME, 1, Fresh(Error, AccessPending, 0), false);
  }

  /** Somebody refreshes the connected row, and the answer takes it off that status. */
  lemma RefreshDenied(run: seq<State>, s: State) returns (more: seq<State>, n: State)
    requires IsRun(run) && run != [] && run[|run| - 1] == s && s.ops == map[0 := Gone, 1 := Wanting(SAME, 1, true)]
    requires s.world == World(map[1 := Fresh(Connected, NoCode, 0)], map[], map[OfAccount(1) := Key(7)])
    requires s.table.nextId == 2 && |s.table.locks| <= 1
    ensures IsRun(more) && run <= more && more[|more| - 1] == n && |n.table.locks| <= 3
    ensures n.ops == map[0 := Gone, 1 := Wanting(SAME, 1, true), 2 := Gone]
    ensures n.world == World(map[1 := Fresh(Error, OtherCode(4), 0)], map[], map[OfAccount(1) := Key(7)])
  {
    hide IsRun;
    hide Next, Enabled, LockFree, CanFinalize, FirstPc;
    more, n := RefreshEnters(run, s);
    more, n := DenialIsMarked(more, n, 2, 1, Fresh(Connected, NoCode, 0));
    more, n := Leaves(more, n, 2);
  }

  lemma DenialIsMarked(run: seq<State>, s: State, o: OpId, id: Id, row: Row) returns (more: seq<State>, n: State)
    requires IsRun(run) && run[|run| - 1] == s && o in s.ops && s.ops[o].Inside? && id in s.world.rows
    requires s.ops[o].session == Session(Refresh, id, row, false, None, AskProvider)
    ensures IsRun(more) && run <= more && more[|more| - 1] == n && n.ops.Keys == s.ops.Keys && n.table == s.table
    ensures n.world == SetState(s.world, id, Error, row.expires, OtherCode(4))
    ensures n.ops[o].Inside? && n.ops[o].session.pc == Ended(Failed)
    ensures forall p :: p in s.ops && p != o ==> n.ops[p] == s.ops[p]
  {
    hide IsRun, CanFinalize;
    more, n := Call(run, s, o, Denies(false));
    assert n.ops[o].session.pc == Mark(Error, OtherCode(4));
    more, n := Call(more, n, o, Works);
  }

  lemma Leaves(run: seq<State>, s: State, o: OpId) returns (more: seq<State>, n: State)
    requires IsRun(run) && run[|run| - 1] == s && o in s.ops && s.ops[o].Inside? && s.ops[o].session.pc.Ended?
    ensures IsRun(more) && run <= more && more[|more| - 1] == n
    ensures n == State(s.world, s.table, s.ops[o := Gone])
  {
    hide IsRun;
    more, n := Take(run, s, Leave(o));
  }

  lemma RefreshEnters(run: seq<State>, s: State) returns (more: seq<State>, n: State)
    requires IsRun(run) && run != [] && run[|run| - 1] == s && s.ops == map[0 := Gone, 1 := Wanting(SAME, 1, true)]
    requires s.world == World(map[1 := Fresh(Connected, NoCode, 0)], map[], map[OfAccount(1) := Key(7)])
    requires s.table.nextId == 2 && |s.table.locks| <= 1
    ensures IsRun(more) && run <= more && more[|more| - 1] == n && |n.table.locks| <= 2 && n.world == s.world
    ensures n.ops.Keys == {0, 1, 2} && n.ops[0] == Gone && n.ops[1] == Wanting(SAME, 1, true) && n.ops[2].Inside?
    ensures n.ops[2].session == Session(Refresh, 1, Fresh(Connected, NoCode, 0), false, None, AskProvider)
  {
    hide IsRun;
    more, n := Take(run, s, Begin(2, Refresh, 1));
    assert n.ops[2] == Wanting(Refresh, 1, false);
    more, n := Enter(more, n, 2, Refresh, 1, false);
  }

  /** No late preparation is needed: one that came early, and a refresh that took the row off Connected, do the same. */
  lemma EarlyPreparationDestroys() returns (run: seq<State>, i: nat)
    ensures IsRun(run) && i < |run|
    ensures run[i].world == World(map[1 := Fresh(Connected, NoCode, 0)], map[], map[OfAccount(1) := Key(7)])
    ensures run[i].ops == map[0 := Gone, 1 := Wanting(SAME, 1, true)]
    ensures run[|run| - 1].world.rows == map[] && run[|run| - 1].world.secrets == map[]
  {
    var s;
    hide IsRun;
    run, s := FinderConnects();
    i := |run| - 1;
    run, s := RefreshDenied(run, s);
    assert forall lock :: LockFree(s.ops, lock);
    run, s := SecondDiscards(run, s, Fresh(Error, OtherCode(4), 0));
  }
}
