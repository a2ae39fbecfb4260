/**
 The supervisor's table of live entries and the process-wide table of profile leases, under every
 interleaving of launches, spawn failures, monitors, dropped handles, preserves and purges.
 */
module Supervisor {
  import opened Common

  type ProfileRef = nat
  type EntryId = nat

  datatype Key = Key(runtime: nat, profile: ProfileRef)

  // ----- the lease table

  type Leases = map<ProfileRef, nat>

  function LeaseCount(leases: Leases, p: ProfileRef): nat {
    if p in leases then leases[p] else 0
  }

  function Leased(leases: Leases, p: ProfileRef): Leases {
    leases[p := LeaseCount(leases, p) + 1]
  }

  /** What dropping a lease does: a missing count is ignored, a count that reaches zero is removed. */
  function Released(leases: Leases, p: ProfileRef): Leases {
    if p !in leases then leases
    else if leases[p] <= 1 then leases - {p}
    else leases[p := leases[p] - 1]
  }

  class LeaseTable {
    var leases: Leases

    constructor ()
      ensures leases == map[]
    {
      leases := map[];
    }

    /** `revalidates` is the answer of the profile check made while the table is locked. */
    method Acquire(p: ProfileRef, revalidates: bool) returns (ok: bool)
      modifies this
      ensures ok == (revalidates && LeaseCount(old(leases), p) < USIZE_MAX)
      ensures leases == if ok then Leased(old(leases), p)
                        else if revalidates then old(leases)[p := LeaseCount(old(leases), p)]
                        else old(leases)
    {
      if !revalidates {
        return false;
      }
      if p !in leases {
        leases := leases[p := 0];
      }
      if leases[p] >= USIZE_MAX {
        return false;
      }
      leases := leases[p := leases[p] + 1];
      ok := true;
    }

    method Release(p: ProfileRef)
      modifies this
      ensures leases == Released(old(leases), p)
    {
      if p in leases {
        var count := if leases[p] == 0 then 0 else leases[p] - 1;
        leases := leases[p := count];
        if count == 0 {
          leases := leases - {p};
        }
      }
    }

    /** The guard a purge evaluates while it holds the table. */
    method InUse(p: ProfileRef) returns (busy: bool)
      ensures busy <==> LeaseCount(leases, p) > 0
    {
      busy := p in leases && leases[p] > 0;
    }
  }

  // ----- entries, profile directories and the shared state

  /**
   A launch up to admission, then until spawn is settled, then a monitored process; or a terminal session, which
   leases its profile and is never in the table.
   */
  datatype Stage = Fresh | Duplicate | Admitted | SpawnFailed | Spawned | Session

  /** An entry and who still holds it: its launch (later its handle, or the session) and its monitor. */
  datatype Entry = Entry(key: Key, stage: Stage, heldByLaunch: bool, heldByMonitor: bool, terminal: bool, leased: bool)

  /** Damaged by a purge, or not; what overlapping preserves leave unreadable counts as intact and not active. */
  datatype Directory = Intact(generation: nat, active: bool) | Damaged

  datatype State = State(
    entries: seq<Entry>,
    live: map<Key, EntryId>,
    leases: Leases,
    dirs: map<ProfileRef, Directory>,
    created: set<ProfileRef>,
    acquiring: Option<Key>)

  const START := State([], map[], map[], map[], {}, None)

  /** What a purge leaves: nothing, all of it, the record before the newest, or no readable record. */
  datatype Remains = Nothing | Everything | OlderRecord | Debris

  datatype Step =
    | Create(profile: ProfileRef)
    | Preserve(profile: ProfileRef)
    | Purge(profile: ProfileRef, left: Remains)
    | Revalidate(key: Key, generation: nat)
    | Count(session: bool)
    | Admit(id: EntryId)
    | Spawn(id: EntryId, ok: bool)
    | RemoveFailed(id: EntryId)
    | MonitorFinishes(id: EntryId)
    | MonitorRemoves(id: EntryId)
    | DropHandle(id: EntryId)
    | ReleaseLease(id: EntryId)

  predicate InTable(s: State, id: EntryId)
    requires id < |s.entries|
  {
    var k := s.entries[id].key;
    k in s.live && s.live[k] == id
  }

  /** Somebody still holds a reference to the entry. */
  predicate Alive(s: State, id: EntryId)
    requires id < |s.entries|
  {
    s.entries[id].heldByLaunch || s.entries[id].heldByMonitor || InTable(s, id)
  }

  predicate Enabled(s: State, step: Step) {
    match step
    case Create(p) => p !in s.created
    case Preserve(p) => p in s.dirs && s.dirs[p].Intact? && s.dirs[p].active
    case Purge(p, left) =>
      && p in s.dirs && LeaseCount(s.leases, p) == 0 && s.acquiring.None?
      && (left.OlderRecord? ==> s.dirs[p].Intact? && !s.dirs[p].active && s.dirs[p].generation > 1)
    case Revalidate(key, generation) =>
      s.acquiring.None? && key.profile in s.dirs && s.dirs[key.profile] == Intact(generation, true)
    case Count(_) => s.acquiring.Some?
    case Admit(id) => id < |s.entries| && s.entries[id].stage == Fresh
    case Spawn(id, _) => id < |s.entries| && s.entries[id].stage == Admitted
    case RemoveFailed(id) => id < |s.entries| && s.entries[id].stage == SpawnFailed && s.entries[id].heldByLaunch
    case MonitorFinishes(id) =>
      id < |s.entries| && s.entries[id].stage == Spawned && s.entries[id].heldByMonitor && !s.entries[id].terminal
    case MonitorRemoves(id) => id < |s.entries| && s.entries[id].heldByMonitor && s.entries[id].terminal
    case DropHandle(id) => id < |s.entries| && s.entries[id].stage in {Spawned, Session} && s.entries[id].heldByLaunch
    case ReleaseLease(id) => id < |s.entries| && s.entries[id].leased && !Alive(s, id) && s.acquiring.None?
  }

  function WithEntry(s: State, id: EntryId, e: Entry): State
    requires id < |s.entries|
  {
    s.(entries := s.entries[id := e])
  }

  /** `entries.retain(..)`: drop every terminal entry from the table. */
  function Pruned(live: map<Key, EntryId>, entries: seq<Entry>): map<Key, EntryId>
  {
    map k | k in live && (live[k] < |entries| ==> !entries[live[k]].terminal) :: live[k]
  }

  /** Remove a key only while it still names the given entry. */
  function RemovedIfSame(live: map<Key, EntryId>, k: Key, id: EntryId): map<Key, EntryId> {
    if k in live && live[k] == id then live - {k} else live
  }

  function DoAdmit(s: State, id: EntryId): State
    requires id < |s.entries|
  {
    var e := s.entries[id];
    var live := Pruned(s.live, s.entries);
    if e.key in live then s.(live := live, entries := s.entries[id := e.(stage := Duplicate, heldByLaunch := false)])
    else s.(live := live[e.key := id], entries := s.entries[id := e.(stage := Admitted)])
  }

  function Purged(dirs: map<ProfileRef, Directory>, p: ProfileRef, left: Remains): map<ProfileRef, Directory>
    requires p in dirs && (left.OlderRecord? ==> dirs[p].Intact? && dirs[p].generation > 1)
  {
    match left
    case Nothing => dirs - {p}
    case Everything => dirs
    case OlderRecord => dirs[p := Intact(dirs[p].generation - 1, true)]
    case Debris => dirs[p := Damaged]
  }

  /** The second half of an acquisition: the lease is counted, the lock goes, the entry is made. */
  function DoCount(s: State, key: Key, session: bool): State {
    if LeaseCount(s.leases, key.profile) >= USIZE_MAX then s.(acquiring := None)
    else
      s.(entries := s.entries + [Entry(key, if session then Session else Fresh, true, false, false, true)],
         leases := Leased(s.leases, key.profile), acquiring := None)
  }

  function Next(s: State, step: Step): State
    requires Enabled(s, step)
  {
    match step
    case Create(p) => s.(dirs := s.dirs[p := Intact(1, true)], created := s.created + {p})
    case Preserve(p) => s.(dirs := s.dirs[p := Intact(s.dirs[p].generation + 1, false)])
    case Purge(p, left) => s.(dirs := Purged(s.dirs, p, left))
    case Revalidate(key, _) => s.(acquiring := Some(key))
    case Count(session) => DoCount(s, s.acquiring.value, session)
    case Admit(id) => DoAdmit(s, id)
    case Spawn(id, ok) =>
      WithEntry(s, id, if ok then s.entries[id].(stage := Spawned, heldByMonitor := true)
                       else s.entries[id].(stage := SpawnFailed))
    case RemoveFailed(id) =>
      WithEntry(s.(live := RemovedIfSame(s.live, s.entries[id].key, id)), id, s.entries[id].(heldByLaunch := false))
    case MonitorFinishes(id) => WithEntry(s, id, s.entries[id].(terminal := true))
    case MonitorRemoves(id) =>
      WithEntry(s.(live := RemovedIfSame(s.live, s.entries[id].key, id)), id, s.entries[id].(heldByMonitor := false))
    case DropHandle(id) => WithEntry(s, id, s.entries[id].(heldByLaunch := false))
    case ReleaseLease(id) =>
      WithEntry(s.(leases := Released(s.leases, s.entries[id].key.profile)), id, s.entries[id].(leased := false))
  }

  /** The same table as an object; its method is a region locked by the entries mutex. */
  class EntryTable {
    var live: map<Key, EntryId>

    method RemoveIfSame(k: Key, id: EntryId)
      modifies this
      ensures live == RemovedIfSame(old(live), k, id)
      ensures forall other :: other in old(live) && old(live)[other] != id ==>
                other in live && live[other] == old(live)[other]
    {
      if k in live && live[k] == id {
        live := live - {k};
      }
    }
  }

  // ----- invariants

  predicate TableShape(s: State) {
    forall k :: k in s.live ==>
      s.live[k] < |s.entries| && s.entries[s.live[k]].key == k
      && s.entries[s.live[k]].stage !in {Fresh, Duplicate, Session}
  }

  /** Every stage says who holds the entry and whether it must be in the table. */
  predicate EntryShape(s: State, id: EntryId)
    requires id < |s.entries|
  {
    var e := s.entries[id];
    && (e.stage in {Fresh, Admitted} ==> e.heldByLaunch)
    && (e.stage == Admitted || (e.stage == SpawnFailed && e.heldByLaunch) || (e.stage == Spawned && !e.terminal) ==>
          InTable(s, id))
    && (e.stage == Spawned && !e.terminal ==> e.heldByMonitor)
    && (e.heldByMonitor || e.terminal ==> e.stage == Spawned)
    && (Alive(s, id) ==> e.leased)
  }

  predicate EntriesShape(s: State) {
    forall id :: 0 <= id < |s.entries| ==> EntryShape(s, id)
  }

  function Holders(entries: seq<Entry>, p: ProfileRef): nat {
    if entries == [] then 0
    else
      var last := entries[|entries| - 1];
      Holders(entries[..|entries| - 1], p) + if last.leased && last.key.profile == p then 1 else 0
  }

  ghost predicate LeaseShape(s: State) {
    && (forall p :: LeaseCount(s.leases, p) == Holders(s.entries, p))
    && (forall p :: p in s.leases ==> s.leases[p] > 0)
  }

  predicate DirShape(s: State) {
    && (forall id :: 0 <= id < |s.entries| && s.entries[id].leased ==>
          s.entries[id].key.profile in s.dirs && s.dirs[s.entries[id].key.profile].Intact?)
    && (s.acquiring.Some? ==> s.acquiring.value.profile in s.dirs && s.dirs[s.acquiring.value.profile].Intact?)
    && s.dirs.Keys <= s.created
  }

  ghost predicate Inv(s: State) {
    TableShape(s) && EntriesShape(s) && LeaseShape(s) && DirShape(s)
  }

  // ----- the lease count is the number of holders

  lemma HoldersSnoc(entries: seq<Entry>, e: Entry, p: ProfileRef)
    ensures Holders(entries + [e], p) == Holders(entries, p) + if e.leased && e.key.profile == p then 1 else 0
  {
    assert (entries + [e])[..|entries|] == entries;
  }

  lemma {:induction false} HoldersUpdate(entries: seq<Entry>, id: EntryId, e: Entry, p: ProfileRef)
    requires id < |entries|
    ensures Holders(entries[id := e], p) + (if entries[id].leased && entries[id].key.profile == p then 1 else 0) ==
            Holders(entries, p) + (if e.leased && e.key.profile == p then 1 else 0)
  {
    var n := |entries| - 1;
    if id == n {
      assert entries[id := e][..n] == entries[..n];
    } else {
      assert entries[id := e][..n] == entries[..n][id := e];
      HoldersUpdate(entries[..n], id, e, p);
    }
  }

  lemma {:induction false} HolderCounts(entries: seq<Entry>, id: EntryId)
    requires id < |entries| && entries[id].leased
    ensures Holders(entries, entries[id].key.profile) > 0
  {
    if id < |entries| - 1 {
      HolderCounts(entries[..|entries| - 1], id);
    }
  }

  lemma LeaseKeptByUpdate(s: State, id: EntryId, e: Entry)
    requires LeaseShape(s) && id < |s.entries|
    requires e.key == s.entries[id].key && e.leased == s.entries[id].leased
    ensures LeaseShape(WithEntry(s, id, e))
  {
    forall p
      ensures Holders(s.entries[id := e], p) == Holders(s.entries, p)
    {
      HoldersUpdate(s.entries, id, e, p);
    }
    hide Holders;
  }

  lemma LeaseKeptByCount(s: State, key: Key, session: bool)
    requires LeaseShape(s)
    ensures LeaseShape(DoCount(s, key, session))
  {
    var e := Entry(key, if session then Session else Fresh, true, false, false, true);
    forall p
      ensures Holders(s.entries + [e], p) == LeaseCount(Leased(s.leases, key.profile), p)
    {
      HoldersSnoc(s.entries, e, p);
    }
    hide Holders;
  }

  lemma LeaseKeptByRelease(s: State, id: EntryId)
    requires LeaseShape(s) && id < |s.entries| && s.entries[id].leased
    ensures LeaseShape(WithEntry(s.(leases := Released(s.leases, s.entries[id].key.profile)), id,
                                 s.entries[id].(leased := false)))
  {
    var e := s.entries[id].(leased := false);
    HolderCounts(s.entries, id);
    forall p
      ensures Holders(s.entries[id := e], p) == LeaseCount(Released(s.leases, e.key.profile), p)
    {
      HoldersUpdate(s.entries, id, e, p);
    }
    hide Holders;
  }

  lemma LeaseKept(s: State, step: Step)
    requires Enabled(s, step) && Inv(s)
    ensures LeaseShape(Next(s, step))
  {
    hide Holders, TableShape, EntriesShape, DirShape, Alive;
    match step
    case Count(session) => LeaseKeptByCount(s, s.acquiring.value, session);
    case ReleaseLease(id) => LeaseKeptByRelease(s, id);
    case Admit(id) =>
      var e := Next(s, step).entries[id];
      LeaseKeptByUpdate(s, id, e);
    case Spawn(id, _) => LeaseKeptByUpdate(s, id, Next(s, step).entries[id]);
    case RemoveFailed(id) => LeaseKeptByUpdate(s, id, Next(s, step).entries[id]);
    case MonitorFinishes(id) => LeaseKeptByUpdate(s, id, Next(s, step).entries[id]);
    case MonitorRemoves(id) => LeaseKeptByUpdate(s, id, Next(s, step).entries[id]);
    case DropHandle(id) => LeaseKeptByUpdate(s, id, Next(s, step).entries[id]);
    case _ =>
  }

  // ----- the table and the holders

  lemma ShapeKeptByAdmit(s: State, id: EntryId)
    requires Enabled(s, Admit(id)) && TableShape(s) && EntriesShape(s)
    ensures TableShape(DoAdmit(s, id)) && EntriesShape(DoAdmit(s, id))
  {
    var t := DoAdmit(s, id);
    AdmitKeepsTable(s, id);
    assert |t.entries| == |s.entries| && id < |s.entries|;
    hide EntryShape, TableShape, DoAdmit, Enabled;
    forall other | 0 <= other < |t.entries|
      ensures EntryShape(t, other)
    {
      assert EntryShape(s, other) && EntryShape(s, id);
      AdmitKeepsEntry(s, id, other);
    }
  }

  lemma AdmitKeepsTable(s: State, id: EntryId)
    requires Enabled(s, Admit(id)) && TableShape(s)
    ensures TableShape(DoAdmit(s, id))
  {
  }

  lemma AdmitKeepsEntry(s: State, id: EntryId, other: EntryId)
    requires Enabled(s, Admit(id)) && TableShape(s) && other < |s.entries| && EntryShape(s, other) && EntryShape(s, id)
    ensures EntryShape(DoAdmit(s, id), other)
  {
  }

  lemma ShapeKeptByUpdate(s: State, step: Step, id: EntryId)
    requires Enabled(s, step) && TableShape(s) && EntriesShape(s)
    requires step in {Spawn(id, true), Spawn(id, false), MonitorFinishes(id), DropHandle(id), ReleaseLease(id)}
    ensures TableShape(Next(s, step)) && EntriesShape(Next(s, step))
  {
    var t := Next(s, step);
    forall other | 0 <= other < |t.entries|
      ensures EntryShape(t, other)
    {
      assert EntryShape(s, other) && EntryShape(s, id);
    }
  }

  lemma ShapeKeptByRemoval(s: State, step: Step, id: EntryId)
    requires Enabled(s, step) && TableShape(s) && EntriesShape(s)
    requires step in {RemoveFailed(id), MonitorRemoves(id)}
    ensures TableShape(Next(s, step)) && EntriesShape(Next(s, step))
  {
    var t := Next(s, step);
    forall other | 0 <= other < |t.entries|
      ensures EntryShape(t, other)
    {
      assert EntryShape(s, other) && EntryShape(s, id);
    }
  }

  lemma ShapeKeptByCount(s: State, key: Key, session: bool)
    requires TableShape(s) && EntriesShape(s)
    ensures TableShape(DoCount(s, key, session)) && EntriesShape(DoCount(s, key, session))
  {
    var t := DoCount(s, key, session);
    forall other | 0 <= other < |t.entries|
      ensures EntryShape(t, other)
    {
      assert other < |s.entries| ==> EntryShape(s, other);
    }
  }

  lemma ShapeKept(s: State, step: Step)
    requires Enabled(s, step) && Inv(s)
    ensures TableShape(Next(s, step)) && EntriesShape(Next(s, step))
  {
    match step
    case Count(session) => ShapeKeptByCount(s, s.acquiring.value, session); hide *;
    case Admit(id) => ShapeKeptByAdmit(s, id); hide *;
    case Spawn(id, ok) => ShapeKeptByUpdate(s, step, id); hide *;
    case MonitorFinishes(id) => ShapeKeptByUpdate(s, step, id); hide *;
    case DropHandle(id) => ShapeKeptByUpdate(s, step, id); hide *;
    case ReleaseLease(id) => ShapeKeptByUpdate(s, step, id); hide *;
    case RemoveFailed(id) => ShapeKeptByRemoval(s, step, id); hide *;
    case MonitorRemoves(id) => ShapeKeptByRemoval(s, step, id); hide *;
    case _ =>
      forall other | 0 <= other < |s.entries|
        ensures EntryShape(Next(s, step), other)
      {
        assert EntryShape(s, other);
      }
  }

  lemma DirKept(s: State, step: Step)
    requires Enabled(s, step) && Inv(s)
    ensures DirShape(Next(s, step))
  {
    if step.Purge? {
      forall id | 0 <= id < |s.entries| && s.entries[id].leased
        ensures s.entries[id].key.profile != step.profile
      {
        HolderCounts(s.entries, id);
      }
    }
    hide Holders, EntriesShape, TableShape, Alive, Pruned;
  }

  lemma InvKept(s: State, step: Step)
    requires Enabled(s, step) && Inv(s)
    ensures Inv(Next(s, step))
  {
    LeaseKept(s, step);
    ShapeKept(s, step);
    DirKept(s, step);
    hide LeaseShape, TableShape, EntriesShape, DirShape;
  }

  // ----- what holds in every run

  ghost predicate IsRun(run: seq<State>) {
    && run != [] && run[0] == START
    && forall i :: 0 <= i < |run| - 1 ==> MovesAt(run, i)
  }

  ghost predicate MovesAt(run: seq<State>, i: nat)
    requires i + 1 < |run|
  {
    Moves(run[i], run[i + 1])
  }

  ghost predicate Moves(s: State, t: State) {
    exists step :: Enabled(s, step) && t == Next(s, step)
  }

  lemma {:induction false} RunInvariant(run: seq<State>, i: nat)
    requires IsRun(run) && i < |run|
    ensures Inv(run[i])
  {
    if i > 0 {
      RunInvariant(run, i - 1);
      assert MovesAt(run, i - 1);
      var step :| Enabled(run[i - 1], step) && run[i] == Next(run[i - 1], step);
      InvKept(run[i - 1], step);
    }
  }

  /** Two admitted or running entries never share a key, and each of them is the one the table names. */
  lemma NoTwoRunnersShareAKey(run: seq<State>, i: nat, a: EntryId, b: EntryId)
    requires IsRun(run) && i < |run| && a < |run[i].entries| && b < |run[i].entries|
    requires forall id :: id in {a, b} ==>
               var e := run[i].entries[id]; e.stage == Admitted || (e.stage == Spawned && !e.terminal)
    ensures InTable(run[i], a) && InTable(run[i], b)
    ensures run[i].entries[a].key == run[i].entries[b].key ==> a == b
  {
    RunInvariant(run, i);
    assert EntryShape(run[i], a) && EntryShape(run[i], b);
  }

  /** Another entry under the same key that the table names and that has not finished. */
  ghost predicate Occupied(s: State, id: EntryId)
    requires id < |s.entries|
  {
    exists other :: 0 <= other < |s.entries| && other != id && InTable(s, other)
                    && s.entries[other].key == s.entries[id].key && !s.entries[other].terminal
  }

  /**
   A launch is refused as a duplicate if and only if an unfinished entry holds its key; otherwise the table names it,
   also where a finished entry was still there. Every unfinished entry stays, every finished one goes.
   */
  lemma AdmittedExactly(run: seq<State>, i: nat, id: EntryId)
    requires IsRun(run) && i < |run| && Enabled(run[i], Admit(id))
    ensures var n := Next(run[i], Admit(id));
            && |n.entries| == |run[i].entries|
            && n.entries[id].stage == (if Occupied(run[i], id) then Duplicate else Admitted)
            && (InTable(n, id) <==> !Occupied(run[i], id))
            && forall other :: 0 <= other < |n.entries| && other != id ==>
                 n.entries[other] == run[i].entries[other]
                 && (InTable(n, other) <==> InTable(run[i], other) && !run[i].entries[other].terminal)
  {
    RunInvariant(run, i);
    var s := run[i];
    assert EntryShape(s, id);
    hide IsRun, LeaseShape, DirShape, EntriesShape;
    assert !InTable(s, id);
    if s.entries[id].key in s.live {
      assert Occupied(s, id) <==> !s.entries[s.live[s.entries[id].key]].terminal;
    }
  }

  /** A late removal by a failed launch or an old monitor only ever takes out its own entry. */
  lemma LateRemovalSparesOthers(run: seq<State>, i: nat, step: Step, id: EntryId, k: Key)
    requires IsRun(run) && i < |run| && step in {RemoveFailed(id), MonitorRemoves(id)} && Enabled(run[i], step)
    requires k in run[i].live
    ensures k in Next(run[i], step).live <==> run[i].live[k] != id
    ensures run[i].live[k] != id ==> Next(run[i], step).live[k] == run[i].live[k]
  {
    RunInvariant(run, i);
    hide EntriesShape, LeaseShape, DirShape;
  }

  /** The table counts exactly the leases still held, keeps no zero, and misses no entry somebody can still reach. */
  lemma LeasesAreCounted(run: seq<State>, i: nat, p: ProfileRef)
    requires IsRun(run) && i < |run|
    ensures LeaseCount(run[i].leases, p) == Holders(run[i].entries, p)
    ensures p in run[i].leases ==> run[i].leases[p] > 0
    ensures forall id :: 0 <= id < |run[i].entries| && Alive(run[i], id) ==> run[i].entries[id].leased
  {
    RunInvariant(run, i);
    forall id | 0 <= id < |run[i].entries| && Alive(run[i], id)
      ensures run[i].entries[id].leased
    {
      assert EntryShape(run[i], id);
    }
  }

  /**
   While anybody holds an entry or a session, no purge has removed or damaged its profile directory and none can
   start; a preserve may have replaced its record.
   */
  lemma ProfileOutlivesItsEntries(run: seq<State>, i: nat, id: EntryId)
    requires IsRun(run) && i < |run| && id < |run[i].entries| && Alive(run[i], id)
    ensures var p := run[i].entries[id].key.profile;
            && p in run[i].dirs && run[i].dirs[p].Intact?
            && LeaseCount(run[i].leases, p) > 0
            && forall left :: !Enabled(run[i], Purge(p, left))
  {
    RunInvariant(run, i);
    assert EntryShape(run[i], id);
    HolderCounts(run[i].entries, id);
  }

  // ----- what can still be launched

  /** Preserved, damaged or removed: a profile no acquisition can newly validate. */
  predicate Retired(s: State, p: ProfileRef) {
    p in s.created && (p in s.dirs ==> s.dirs[p].Intact? ==> !s.dirs[p].active)
  }

  predicate Removed(s: State, p: ProfileRef) {
    p in s.created && (p in s.dirs ==> s.dirs[p].Damaged?)
  }

  predicate PendingOn(s: State, p: ProfileRef) {
    s.acquiring.Some? && s.acquiring.value.profile == p
  }

  /** A preserved profile whose newest record is gone and whose older, active one is current again. */
  predicate Revived(s: State, t: State, p: ProfileRef) {
    Retired(s, p) && !Retired(t, p)
  }

  /** A step revives a retired profile if and only if it is a purge that fails after deleting the newest record. */
  lemma OnlyFailedPurgesRevive(s: State, step: Step, p: ProfileRef)
    requires Enabled(s, step) && s.dirs.Keys <= s.created && Retired(s, p)
    ensures Revived(s, Next(s, step), p) <==> step == Purge(p, OlderRecord)
  {
    hide Alive, Pruned, Leased, Released;
  }

  ghost predicate GotEntry(s: State, t: State, p: ProfileRef) {
    exists id :: |s.entries| <= id < |t.entries| && t.entries[id].key.profile == p
  }

  /**
   From `s` to `t` the profile got at most one new entry, and that one belongs to the acquisition that had
   validated it before and had room in the count; an acquisition still pending is that same one, and then there is
   no new entry yet and the count has not moved.
   */
  ghost predicate OnlyThePending(s: State, t: State, p: ProfileRef) {
    && |s.entries| <= |t.entries|
    && (forall id :: 0 <= id < |s.entries| ==> t.entries[id].key == s.entries[id].key)
    && (forall id :: |s.entries| <= id < |t.entries| && t.entries[id].key.profile == p ==>
          s.acquiring == Some(t.entries[id].key) && !PendingOn(t, p) && LeaseCount(s.leases, p) < USIZE_MAX)
    && (forall a, b :: |s.entries| <= a < b < |t.entries| ==>
          !(t.entries[a].key.profile == p == t.entries[b].key.profile))
    && (PendingOn(t, p) ==> t.acquiring == s.acquiring && LeaseCount(t.leases, p) == LeaseCount(s.leases, p))
  }

  /** What a step does to entries, pending acquisition and count. */
  lemma StepEffect(u: State, step: Step, p: ProfileRef)
    requires Enabled(u, step) && Retired(u, p)
    ensures var t := Next(u, step);
            && |u.entries| <= |t.entries| <= |u.entries| + 1
            && (forall id :: 0 <= id < |u.entries| ==> t.entries[id].key == u.entries[id].key)
            && (|t.entries| > |u.entries| ==> u.acquiring == Some(t.entries[|u.entries|].key) && t.acquiring.None?
                                              && LeaseCount(u.leases, u.acquiring.value.profile) < USIZE_MAX)
            && (PendingOn(t, p) ==> t.acquiring == u.acquiring && t.leases == u.leases)
  {
    hide Alive, Pruned;
  }

  lemma StepKeepsPending(s: State, u: State, step: Step, p: ProfileRef)
    requires Enabled(u, step) && OnlyThePending(s, u, p) && Retired(u, p)
    ensures OnlyThePending(s, Next(u, step), p)
  {
    StepEffect(u, step, p);
    hide Next, Enabled, LeaseCount, Retired;
  }

  /** While a profile stays retired, only an acquisition that had validated it before can still get an entry on it. */
  lemma {:induction false} RetiredUntilRevived(run: seq<State>, i: nat, j: nat, p: ProfileRef)
    requires IsRun(run) && i <= j < |run| && Retired(run[i], p)
    requires forall m :: i <= m < j ==> !RevivedAt(run, m, p)
    ensures Retired(run[j], p) && OnlyThePending(run[i], run[j], p)
  {
    if i < j {
      RetiredUntilRevived(run, i, j - 1, p);
      assert MovesAt(run, j - 1) && !RevivedAt(run, j - 1, p);
      var step :| Enabled(run[j - 1], step) && run[j] == Next(run[j - 1], step);
      StepKeepsPending(run[i], run[j - 1], step, p);
      hide Next, Enabled, Retired, OnlyThePending;
    }
  }

  /** Some continuation without a revival gives the profile one more entry. */
  ghost predicate CanStillLaunch(run: seq<State>, p: ProfileRef)
    requires run != []
  {
    exists more :: LaunchesIn(run, more, p)
  }

  ghost predicate LaunchesIn(run: seq<State>, more: seq<State>, p: ProfileRef)
    requires run != []
  {
    && IsRun(more) && run <= more && GotEntry(run[|run| - 1], more[|more| - 1], p)
    && forall m :: |run| - 1 <= m < |more| - 1 ==> !RevivedAt(more, m, p)
  }

  /**
   For every run that ends with the profile retired: one more entry on it is possible if and only if an acquisition
   that validated it is pending and its count has room.
   */
  lemma LateLaunchExactly(run: seq<State>, p: ProfileRef)
    requires IsRun(run) && Retired(run[|run| - 1], p)
    ensures CanStillLaunch(run, p)
       <==> PendingOn(run[|run| - 1], p) && LeaseCount(run[|run| - 1].leases, p) < USIZE_MAX
  {
    var s := run[|run| - 1];
    if PendingOn(s, p) && LeaseCount(s.leases, p) < USIZE_MAX {
      var more, t := Extend(run, s, Count(false));
      CountLaunches(s, p);
      assert !RevivedAt(more, |run| - 1, p);
      hide IsRun, GotEntry, Next;
      assert LaunchesIn(run, more, p);
    }
    hide Next, Enabled, Retired;
    forall more | LaunchesIn(run, more, p)
      ensures PendingOn(s, p) && LeaseCount(s.leases, p) < USIZE_MAX
    {
      RetiredUntilRevived(more, |run| - 1, |more| - 1, p);
    }
  }

  lemma CountLaunches(s: State, p: ProfileRef)
    requires Retired(s, p) && PendingOn(s, p) && LeaseCount(s.leases, p) < USIZE_MAX
    ensures GotEntry(s, Next(s, Count(false)), p) && Retired(Next(s, Count(false)), p)
  {
    var t := Next(s, Count(false));
    assert t.entries[|s.entries|].key.profile == p;
  }

  ghost predicate RevivedAt(run: seq<State>, m: nat, p: ProfileRef)
    requires m + 1 < |run|
  {
    Revived(run[m], run[m + 1], p)
  }

  lemma StepKeepsRemoved(s: State, step: Step, p: ProfileRef)
    requires Enabled(s, step) && Removed(s, p) && DirShape(s)
    ensures Removed(Next(s, step), p)
    ensures |Next(s, step).entries| >= |s.entries|
    ensures forall id :: |s.entries| <= id < |Next(s, step).entries| ==> Next(s, step).entries[id].key.profile != p
  {
    hide Alive, Pruned, Leased, Released;
  }

  /** Once a purge has removed a profile, nothing is ever launched from it. */
  lemma {:induction false} PurgedForever(run: seq<State>, i: nat, j: nat, p: ProfileRef)
    requires IsRun(run) && i <= j < |run| && Removed(run[i], p)
    ensures Removed(run[j], p) && |run[i].entries| <= |run[j].entries|
    ensures forall id :: |run[i].entries| <= id < |run[j].entries| ==> run[j].entries[id].key.profile != p
  {
    if i < j {
      PurgedForever(run, i, j - 1, p);
      RunInvariant(run, j - 1);
      assert MovesAt(run, j - 1);
      var step :| Enabled(run[j - 1], step) && run[j] == Next(run[j - 1], step);
      StepKeepsRemoved(run[j - 1], step, p);
      StepKeepsKeys(run[j - 1], step);
      hide Next, Enabled, Removed, Inv;
    }
  }

  lemma StepKeepsKeys(s: State, step: Step)
    requires Enabled(s, step)
    ensures |s.entries| <= |Next(s, step).entries|
    ensures forall id :: 0 <= id < |s.entries| ==> Next(s, step).entries[id].key == s.entries[id].key
  {
    hide Alive, Pruned, Leased, Released;
  }

  /**
   Every entry belongs to an acquisition that saw its profile active at some moment, and from then until the
   entry was made nobody else held the lease table.
   */
  lemma EntriesWereValidated(run: seq<State>, i: nat) returns (k: nat)
    requires IsRun(run) && i + 1 < |run| && |run[i + 1].entries| > |run[i].entries|
    ensures |run[i + 1].entries| == |run[i].entries| + 1 && k < i
    ensures var key := run[i + 1].entries[|run[i].entries|].key;
            && key.profile in run[k].dirs && run[k].dirs[key.profile].Intact? && run[k].dirs[key.profile].active
            && run[k].acquiring.None? && forall m :: k < m <= i ==> run[m].acquiring == Some(key)
  {
    assert MovesAt(run, i);
    var step :| Enabled(run[i], step) && run[i + 1] == Next(run[i], step);
    GrowthIsCount(run[i], step);
    hide Next, Enabled;
    k := PendingSince(run, i);
  }

  lemma GrowthIsCount(s: State, step: Step)
    requires Enabled(s, step) && |Next(s, step).entries| > |s.entries|
    ensures |Next(s, step).entries| == |s.entries| + 1
    ensures s.acquiring == Some(Next(s, step).entries[|s.entries|].key)
  {
    hide Alive, Pruned, Leased, Released;
  }

  lemma {:induction false} PendingSince(run: seq<State>, i: nat) returns (k: nat)
    requires IsRun(run) && i < |run| && run[i].acquiring.Some?
    ensures k < i && run[k].acquiring.None?
    ensures var key := run[i].acquiring.value;
            && key.profile in run[k].dirs && run[k].dirs[key.profile].Intact? && run[k].dirs[key.profile].active
            && forall m :: k < m <= i ==> run[m].acquiring == Some(key)
  {
    assert i > 0;
    assert MovesAt(run, i - 1);
    var step :| Enabled(run[i - 1], step) && run[i] == Next(run[i - 1], step);
    PendingStep(run[i - 1], step);
    hide Next, Enabled;
    if run[i - 1].acquiring.Some? {
      k := PendingSince(run, i - 1);
    } else {
      k := i - 1;
    }
  }

  lemma PendingStep(s: State, step: Step)
    requires Enabled(s, step) && Next(s, step).acquiring.Some?
    ensures var key := Next(s, step).acquiring.value;
            || s.acquiring == Some(key)
            || (s.acquiring.None? && key.profile in s.dirs && s.dirs[key.profile].Intact? && s.dirs[key.profile].active)
  {
    hide Alive, Pruned, Leased, Released;
  }

  // ----- two launches that come late

  lemma Extend(run: seq<State>, s: State, step: Step) returns (more: seq<State>, t: State)
    requires IsRun(run) && run[|run| - 1] == s && Enabled(s, step)
    ensures IsRun(more) && |more| == |run| + 1 && run <= more && more[|more| - 1] == t == Next(s, step)
  {
    t := Next(s, step);
    assert Moves(s, t);
    hide Moves, Next, Enabled;
    more := run + [t];
    forall i | 0 <= i < |more| - 1
      ensures MovesAt(more, i)
    {
      assert i < |run| - 1 ==> MovesAt(run, i);
    }
  }

  lemma Created(p: ProfileRef) returns (run: seq<State>, s: State)
    ensures IsRun(run) && |run| == 2 && run[1] == s == START.(dirs := map[p := Intact(1, true)], created := {p})
  {
    run, s := Extend([START], START, Create(p));
  }

  /** A preserve between the check and the count: a process runs on a profile preserved before its entry existed. */
  lemma LaunchAfterPreserve(key: Key) returns (run: seq<State>, i: nat)
    ensures IsRun(run) && i < |run| && Retired(run[i], key.profile) && run[i].entries == []
    ensures var end := run[|run| - 1];
            && |end.entries| == 1 && end.entries[0].key == key && end.entries[0].stage == Spawned
            && Retired(end, key.profile)
  {
    var s;
    run, s := Created(key.profile);
    hide IsRun;
    run, s := Extend(run, s, Revalidate(key, 1));
    run, s := Extend(run, s, Preserve(key.profile));
    i := |run| - 1;
    run, s := Extend(run, s, Count(false));
    run, s := Extend(run, s, Admit(0));
    run, s := Extend(run, s, Spawn(0, true));
  }

  /** A purge of a preserved profile that fails after deleting its newest record: the profile can be launched again. */
  lemma LaunchAfterFailedPurge(key: Key) returns (run: seq<State>, i: nat)
    ensures IsRun(run) && i < |run| && Retired(run[i], key.profile) && run[i].entries == [] && run[i].acquiring.None?
    ensures var end := run[|run| - 1]; |end.entries| == 1 && end.entries[0].key == key
  {
    var s;
    run, s := Created(key.profile);
    hide IsRun;
    run, s := Extend(run, s, Preserve(key.profile));
    i := |run| - 1;
    run, s := Extend(run, s, Purge(key.profile, OlderRecord));
    run, s := Extend(run, s, Revalidate(key, 1));
    run, s := Extend(run, s, Count(false));
  }
}
