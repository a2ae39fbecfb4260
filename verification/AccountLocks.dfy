/** The bounded map of per-account locks. */
module AccountLocks {
  import opened Common
  import opened AccountData

  const MAX_TRACKED_ACCOUNT_LOCKS: nat := 64

  type LockId = nat

  /** Lock objects that some operation holds or waits for have more references than the map's own. */
  function Retained(table: map<Id, LockId>, inUse: set<LockId>): map<Id, LockId> {
    map id | id in table && table[id] in inUse :: table[id]
  }

  /** The table a request for a lock works with: pruned only if it is full and has no entry for the account. */
  function RoomFor(table: map<Id, LockId>, id: Id, inUse: set<LockId>): map<Id, LockId> {
    if id !in table && |table| >= MAX_TRACKED_ACCOUNT_LOCKS then Retained(table, inUse) else table
  }

  predicate Admits(table: map<Id, LockId>, id: Id, inUse: set<LockId>) {
    id in table || |RoomFor(table, id, inUse)| < MAX_TRACKED_ACCOUNT_LOCKS
  }

  function Requested(table: map<Id, LockId>, id: Id, inUse: set<LockId>, unused: LockId): map<Id, LockId> {
    var room := RoomFor(table, id, inUse);
    if id in table || !Admits(table, id, inUse) then room else room[id := unused]
  }

  function Released(table: map<Id, LockId>, id: Id, inUse: set<LockId>): map<Id, LockId> {
    var rest := table - {id};
    if |rest| > MAX_TRACKED_ACCOUNT_LOCKS then Retained(rest, inUse) else rest
  }

  lemma RetainedIsSmaller(table: map<Id, LockId>, inUse: set<LockId>)
    ensures |Retained(table, inUse)| <= |table|
  {
    SubsetSize(Retained(table, inUse).Keys, table.Keys);
    assert |Retained(table, inUse).Keys| == |Retained(table, inUse)| && |table.Keys| == |table|;
  }

  /** The bound, and what a request may drop: only entries nobody uses. */
  lemma RequestKeepsUsed(table: map<Id, LockId>, id: Id, inUse: set<LockId>, unused: LockId)
    requires |table| <= MAX_TRACKED_ACCOUNT_LOCKS
    ensures |Requested(table, id, inUse, unused)| <= MAX_TRACKED_ACCOUNT_LOCKS
    ensures forall j :: j in table && (table[j] in inUse || j == id) ==>
              j in Requested(table, id, inUse, unused) && Requested(table, id, inUse, unused)[j] == table[j]
    ensures Admits(table, id, inUse) ==> id in Requested(table, id, inUse, unused)
    ensures forall j :: j in Requested(table, id, inUse, unused) && j != id ==>
              j in table && Requested(table, id, inUse, unused)[j] == table[j]
  {
    RetainedIsSmaller(table, inUse);
  }

  /** The accounts whose tracked lock somebody holds or awaits. */
  function Used(table: map<Id, LockId>, inUse: set<LockId>): set<Id> {
    set id | id in table && table[id] in inUse
  }

  /** A request is refused as busy if and only if the account has no lock and 64 others are held or awaited. */
  lemma BusyExactly(table: map<Id, LockId>, id: Id, inUse: set<LockId>)
    requires |table| <= MAX_TRACKED_ACCOUNT_LOCKS
    ensures !Admits(table, id, inUse) <==> id !in table && |Used(table, inUse)| == MAX_TRACKED_ACCOUNT_LOCKS
  {
    var kept := Retained(table, inUse);
    assert kept.Keys == Used(table, inUse);
    assert |kept.Keys| == |kept| && |table.Keys| == |table|;
    SubsetSize(Used(table, inUse), table.Keys);
  }

  lemma ReleaseKeepsOthers(table: map<Id, LockId>, id: Id, inUse: set<LockId>)
    requires |table| <= MAX_TRACKED_ACCOUNT_LOCKS
    ensures Released(table, id, inUse) == table - {id} && |Released(table, id, inUse)| <= MAX_TRACKED_ACCOUNT_LOCKS
  {
    SubsetSize((table - {id}).Keys, table.Keys);
    assert |(table - {id}).Keys| == |table - {id}| && |table.Keys| == |table|;
  }

  class LockMap {
    var table: map<Id, LockId>
    var unused: LockId

    constructor ()
      ensures table == map[] && unused == 0
    {
      table, unused := map[], 0;
    }

    /** Gives out the lock object of an account, making one if there is room; `None` is the busy refusal. */
    method LockAccount(id: Id, inUse: set<LockId>) returns (r: Option<LockId>)
      modifies this
      ensures table == Requested(old(table), id, inUse, old(unused))
      ensures r.Some? <==> Admits(old(table), id, inUse)
      ensures r.Some? ==> r.value == if id in old(table) then old(table)[id] else old(unused)
      ensures unused == if r == Some(old(unused)) && id !in old(table) then old(unused) + 1 else old(unused)
    {
      if id in table {
        return Some(table[id]);
      }
      if |table| >= MAX_TRACKED_ACCOUNT_LOCKS {
        table := map j | j in table && table[j] in inUse :: table[j];
      }
      if |table| >= MAX_TRACKED_ACCOUNT_LOCKS {
        return None;
      }
      table := table[id := unused];
      r := Some(unused);
      unused := unused + 1;
    }
  }
}
