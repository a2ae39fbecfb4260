/**
 The two stores an account lives in, the database and the secret store, and the steps a locked connect,
 refresh or disconnect takes between them.
 */
module AccountData {
  import opened Common

  type Id = nat

  /** Where a secret is kept: under a name made from the account id, or under one an older schema chose. */
  datatype Ref = OfAccount(id: Id) | Legacy(n: nat)

  datatype Product = ApiKey(n: nat) | Subscription(n: nat) | OtherProduct(n: nat)

  predicate RequiresCredential(product: Product) {
    !product.Subscription?
  }

  datatype Status = Connected | Expired | Error | Revoked | DisconnectPending

  datatype Code = NoCode | AccessPending | CredentialExpired | RollbackFailed | OtherCode(n: nat)

  /** An account row; `expires` says it has an expiry date, `edits` counts the rewrites by callers that hold no lock. */
  datatype Row = Row(
    product: Product, identity: nat, cred: Option<Ref>, status: Status, code: Code, expires: bool, edits: nat)

  datatype Secret = Key(value: nat) | Garbage

  /** A secret left to be deleted by the schema migration; `known` if its owner is the registered one. */
  datatype Cleanup = Cleanup(ref: Ref, known: bool)

  datatype World = World(rows: map<Id, Row>, cleanup: map<Id, Cleanup>, secrets: map<Ref, Secret>)

  datatype Request =
    | Connect(product: Product, identity: nat, key: nat, account: Option<Id>)
    | Refresh
    | Disconnect(metadataOnly: bool)

  /** How an outside call goes: it works, or it fails before or after taking effect; providers say more. */
  datatype Answer = Works | FailsBefore | FailsAfter | Provides(key: Option<nat>, expiry: bool) | Denies(revoked: bool)

  /** A failed connect: the key it read before, whether its own got written, whether the rollback took effect. */
  datatype Undo = Undo(previous: Option<nat>, wrote: bool, restored: bool)

  datatype Outcome =
    | Succeeded
    | Refused
    | RolledBack(previous: Option<nat>)
    | Marked(undo: Undo, edits: nat)
    | Unmarked(undo: Undo)
    | Removed
    | Failed

  datatype Pc =
    // connect
    | GetOld | Put(previous: Option<nat>) | Finalize(previous: Option<nat>)
    | Rollback(previous: Option<nat>, wrote: bool) | MarkRollback(undo: Undo)
    // clearing up after the migration
    | Drain | DrainDelete(ref: Ref) | DrainForget(ref: Ref)
    // disconnect
    | Access | SetRevoked | DeleteSecret | DeleteRow | Unmap
    // refresh
    | AskProvider | PutRotated(key: nat, expires: bool) | Promote(rotated: Option<nat>, expires: bool)
    // best-effort note on the row, and the end
    | Mark(status: Status, code: Code) | Ended(outcome: Outcome)

  /** A locked operation that has re-read its row as `seen`; `heard` is what the provider answered, once it has. */
  datatype Session = Session(request: Request, id: Id, seen: Row, isNew: bool, heard: Option<Answer>, pc: Pc)

  datatype Acted = Acted(world: World, pc: Pc)

  // ----- single calls to the stores

  function SetState(w: World, id: Id, status: Status, expires: bool, code: Code): World {
    if id in w.rows then
      w.(rows := w.rows[id := w.rows[id].(status := status, expires := expires, code := code)])
    else w
  }

  /** The expiry a session writes back with a status: none for a connect, else the one it saw. */
  function Expiry(t: Session): bool {
    !t.request.Connect? && t.seen.expires
  }

  predicate TakesEffect(a: Answer) {
    a.Works? || a.FailsAfter?
  }

  function PutSecret(w: World, ref: Ref, secret: Secret, a: Answer): World {
    if TakesEffect(a) then w.(secrets := w.secrets[ref := secret]) else w
  }

  function DropSecret(w: World, ref: Ref, a: Answer): World {
    if TakesEffect(a) then w.(secrets := w.secrets - {ref}) else w
  }

  /** The metadata write of a connect: refuses a missing row, another product, and a taken identity. */
  predicate CanFinalize(w: World, id: Id, product: Product, identity: nat) {
    && id in w.rows && w.rows[id].product == product && w.rows[id].cred.Some?
    && forall other :: other in w.rows && other != id ==>
         !(w.rows[other].product == product && w.rows[other].identity == identity)
  }

  function Finalized(row: Row, identity: nat): Row {
    row.(identity := identity, status := Connected, code := NoCode, expires := false)
  }

  // ----- the steps

  function ActConnect(w: World, t: Session, a: Answer): Acted
    requires t.request.Connect?
  {
    if t.seen.cred.None? then Acted(w, Ended(Refused))
    else
      var ref := t.seen.cred.value;
      match t.pc
      case GetOld =>
        if !a.Works? then Acted(w, Ended(Refused))
        else if ref in w.secrets && w.secrets[ref].Key? then Acted(w, Put(Some(w.secrets[ref].value)))
        else Acted(w, Put(None))
      case Put(previous) =>
        Acted(PutSecret(w, ref, Key(t.request.key), a),
              if a.Works? then Finalize(previous) else Rollback(previous, TakesEffect(a)))
      case Finalize(previous) =>
        if a.Works? && CanFinalize(w, t.id, t.request.product, t.request.identity) then
          var row := Finalized(w.rows[t.id], t.request.identity);
          Acted(w.(rows := w.rows[t.id := row]), Drain)
        else Acted(w, Rollback(previous, true))
      case Rollback(previous, wrote) =>
        var next := if !a.Works? then MarkRollback(Undo(previous, wrote, TakesEffect(a)))
                    else if t.isNew then DeleteRow else Ended(RolledBack(previous));
        Acted(if previous.Some? then PutSecret(w, ref, Key(previous.value), a) else DropSecret(w, ref, a), next)
      case MarkRollback(undo) =>
        if a.Works? && t.id in w.rows then
          Acted(SetState(w, t.id, Error, false, RollbackFailed), Ended(Marked(undo, w.rows[t.id].edits)))
        else Acted(w, Ended(Unmarked(undo)))
      case _ => Acted(w, t.pc)
  }

  function AfterDrain(t: Session): Pc {
    match t.request
    case Connect(_, _, _, _) => Ended(Succeeded)
    case Refresh => Ended(Refused)
    case Disconnect(metadataOnly) =>
      if !metadataOnly then Access
      else if t.seen.product.Subscription? then Mark(DisconnectPending, OtherCode(0))
      else DeleteSecret
  }

  function DrainFails(t: Session): Pc {
    Mark(if t.request.Connect? then Error else DisconnectPending, OtherCode(1))
  }

  function ActDrain(w: World, t: Session, a: Answer): Acted {
    match t.pc
    case Drain =>
      if !a.Works? then Acted(w, DrainFails(t))
      else if t.id !in w.cleanup then Acted(w, AfterDrain(t))
      else Acted(w, if w.cleanup[t.id].known then DrainDelete(w.cleanup[t.id].ref) else DrainFails(t))
    case DrainDelete(ref) => Acted(DropSecret(w, ref, a), if a.Works? then DrainForget(ref) else DrainFails(t))
    case DrainForget(_) =>
      if a.Works? then Acted(w.(cleanup := w.cleanup - {t.id}), AfterDrain(t)) else Acted(w, DrainFails(t))
    case _ => Acted(w, t.pc)
  }

  function ActRemove(w: World, t: Session, a: Answer): Acted {
    match t.pc
    case Access =>
      Acted(w, if a.Works? then SetRevoked
               else if a.FailsBefore? then Mark(DisconnectPending, OtherCode(2)) else Ended(Failed))
    case SetRevoked =>
      if a.Works? && t.id in w.rows then Acted(SetState(w, t.id, Revoked, Expiry(t), NoCode), DeleteSecret)
      else Acted(w, Ended(Failed))
    case DeleteSecret =>
      if t.seen.cred.None? then Acted(w, DeleteRow)
      else
        Acted(DropSecret(w, t.seen.cred.value, a),
              if a.Works? then DeleteRow else Mark(DisconnectPending, OtherCode(3)))
    case DeleteRow =>
      if a.Works? && t.id in w.rows && t.id !in w.cleanup then Acted(w.(rows := w.rows - {t.id}), Unmap)
      else Acted(w, Ended(Failed))
    case Mark(status, code) =>
      Acted(if a.Works? then SetState(w, t.id, status, Expiry(t), code) else w, Ended(Failed))
    case _ => Acted(w, t.pc)
  }

  function ActRefresh(w: World, t: Session, a: Answer): Acted {
    match t.pc
    case AskProvider =>
      Acted(w, match a
               case Denies(revoked) => Mark(if revoked then Revoked else Error, OtherCode(4))
               case Provides(key, expiry) =>
                 if key.Some? != RequiresCredential(t.seen.product) || key.Some? != t.seen.cred.Some?
                 then Ended(Refused)
                 else if key.Some? then PutRotated(key.value, expiry || t.seen.expires)
                 else Promote(None, t.seen.expires)
               case _ => Ended(Failed))
    case PutRotated(key, expires) =>
      if t.seen.cred.None? then Acted(w, Ended(Refused))
      else
        Acted(PutSecret(w, t.seen.cred.value, Key(key), a),
              if a.Works? then Promote(Some(key), expires) else Mark(Error, OtherCode(5)))
    case Promote(_, expires) =>
      if a.Works? && t.id in w.rows then Acted(SetState(w, t.id, Connected, expires, NoCode), Ended(Succeeded))
      else Acted(w, Ended(Failed))
    case _ => Acted(w, t.pc)
  }

  predicate Connecting(pc: Pc) {
    pc.GetOld? || pc.Put? || pc.Finalize? || pc.Rollback? || pc.MarkRollback?
  }

  predicate Draining(pc: Pc) {
    pc.Drain? || pc.DrainDelete? || pc.DrainForget?
  }

  predicate Removing(pc: Pc) {
    pc.Access? || pc.SetRevoked? || pc.DeleteSecret? || pc.DeleteRow? || pc.Mark?
  }

  predicate Refreshing(pc: Pc) {
    pc.AskProvider? || pc.PutRotated? || pc.Promote?
  }

  /** One call of a locked operation to one of the stores or to the provider. */
  function Act(w: World, t: Session, a: Answer): Acted
  {
    if Connecting(t.pc) && t.request.Connect? then ActConnect(w, t, a)
    else if Draining(t.pc) then ActDrain(w, t, a)
    else if Removing(t.pc) then ActRemove(w, t, a)
    else ActRefresh(w, t, a)
  }

  /** The session after a call, and what it has heard by then. */
  function After(t: Session, a: Answer, pc: Pc): Session {
    t.(pc := pc, heard := if t.pc.AskProvider? then Some(a) else t.heard)
  }

  function FirstPc(request: Request, row: Row, isNew: bool): Pc {
    match request
    case Connect(_, _, _, _) => if isNew then Put(None) else GetOld
    case Refresh => if row.status == Revoked || row.status == DisconnectPending then Ended(Refused) else AskProvider
    case Disconnect(_) => Drain
  }

  // ----- what a session relies on

  /** The row is as the session saw it, or some caller without the lock has rewritten it since. */
  predicate Untouched(row: Row, seen: Row) {
    row == seen || (row.edits > seen.edits && EditCode(row.code))
  }

  /** The codes that writers without the lock leave. */
  predicate EditCode(code: Code) {
    code.AccessPending? || code.CredentialExpired?
  }

  predicate IsMarked(row: Row) {
    row.status == Error && row.code == RollbackFailed
  }

  /** What the store holds after a failed write, going by which calls took effect. */
  predicate AfterUndo(w: World, t: Session, undo: Undo) {
    t.request.Connect? && t.seen.cred.Some?
    && (undo.previous.Some? ==>
          var key := if undo.wrote && !undo.restored then t.request.key else undo.previous.value;
          SecretIs(w, t.seen.cred, Some(Key(key))))
  }

  predicate SecretIs(w: World, cred: Option<Ref>, secret: Option<Secret>) {
    cred.Some? ==>
      (secret.Some? ==> cred.value in w.secrets && w.secrets[cred.value] == secret.value)
      && (secret.None? ==> cred.value !in w.secrets)
  }

  predicate OldKey(w: World, cred: Option<Ref>, previous: Option<nat>) {
    previous.Some? ==> SecretIs(w, cred, Some(Key(previous.value)))
  }

  /** The key is stored and the row says so, unless rewritten without the lock. */
  predicate Established(w: World, t: Session, row: Row) {
    t.request.Connect? ==>
      t.seen.cred.Some? && SecretIs(w, t.seen.cred, Some(Key(t.request.key)))
      && (row.edits > t.seen.edits || (row.status == Connected && row.identity == t.request.identity))
  }

  /** A disconnect has cleaned up after the migration and, unless it is local only, shown the row as revoked. */
  predicate MayRemove(w: World, t: Session, row: Row) {
    t.request.Disconnect? ==>
      t.id !in w.cleanup && (t.request.metadataOnly || row.status == Revoked || row.edits > t.seen.edits)
  }

  /** The provider handed out that key, or none, and the expiry follows from its answer and the row. */
  predicate WasGiven(t: Session, key: Option<nat>, expires: bool) {
    && t.heard.Some? && t.heard.value.Provides? && t.heard.value.key == key
    && expires == (t.seen.expires || (key.Some? && t.heard.value.expiry))
  }

  /** A refresh has stored what the provider handed out, and the row says so, unless rewritten without the lock. */
  predicate Refreshed(w: World, t: Session, row: Row) {
    t.request.Refresh? ==>
      && t.heard.Some? && t.heard.value.Provides? && t.heard.value.key.Some? == t.seen.cred.Some?
      && OldKey(w, t.seen.cred, t.heard.value.key)
      && (row.edits > t.seen.edits
          || (row.status == Connected && row.code == NoCode && WasGiven(t, t.heard.value.key, row.expires)))
  }

  predicate OutcomeInv(w: World, t: Session, row: Row, outcome: Outcome) {
    match outcome
    case Succeeded =>
      Established(w, t, row) && Refreshed(w, t, row) && (t.request.Connect? ==> t.id !in w.cleanup)
    case RolledBack(previous) =>
      !t.isNew && t.seen.cred.Some? && Untouched(row, t.seen)
      && SecretIs(w, t.seen.cred, if previous.Some? then Some(Key(previous.value)) else None)
    case Marked(undo, edits) =>
      AfterUndo(w, t, undo) && (if row.edits == edits then IsMarked(row) else row.edits > edits && EditCode(row.code))
    case Unmarked(undo) => AfterUndo(w, t, undo) && Untouched(row, t.seen)
    case Failed => t.request.Connect? && !t.isNew ==> SecretIs(w, t.seen.cred, Some(Key(t.request.key)))
    case _ => true
  }

  predicate PcInv(w: World, t: Session, row: Row) {
    match t.pc
    case GetOld => !t.isNew && t.request.Connect? && Untouched(row, t.seen)
    case Put(previous) =>
      t.request.Connect? && Untouched(row, t.seen) && (t.isNew ==> previous.None?) && OldKey(w, t.seen.cred, previous)
    case Finalize(previous) =>
      t.request.Connect? && Untouched(row, t.seen) && (t.isNew ==> previous.None?)
      && t.seen.cred.Some? && SecretIs(w, t.seen.cred, Some(Key(t.request.key)))
    case Rollback(previous, wrote) =>
      Untouched(row, t.seen) && (t.isNew ==> previous.None?) && AfterUndo(w, t, Undo(previous, wrote, false))
    case MarkRollback(undo) => Untouched(row, t.seen) && AfterUndo(w, t, undo)
    case Drain => Established(w, t, row)
    case DrainDelete(ref) => Established(w, t, row) && t.id in w.cleanup && w.cleanup[t.id].ref == ref
    case DrainForget(ref) =>
      Established(w, t, row) && t.id in w.cleanup && w.cleanup[t.id].ref == ref && ref !in w.secrets
    case Access => t.request.Disconnect? && t.id !in w.cleanup
    case SetRevoked => t.request.Disconnect? && t.id !in w.cleanup
    case DeleteSecret => t.request.Disconnect? && MayRemove(w, t, row)
    case DeleteRow => (t.request.Connect? ==> t.isNew) && MayRemove(w, t, row) && SecretIs(w, t.seen.cred, None)
    case Mark(status, _) =>
      status != Connected && (t.request.Connect? ==> SecretIs(w, t.seen.cred, Some(Key(t.request.key))))
    case PutRotated(key, expires) => t.request.Refresh? && t.seen.cred.Some? && WasGiven(t, Some(key), expires)
    case Promote(rotated, expires) =>
      && t.request.Refresh? && rotated.Some? == t.seen.cred.Some? && OldKey(w, t.seen.cred, rotated)
      && WasGiven(t, rotated, expires)
    case AskProvider => t.request.Refresh?
    case Unmap => false
    case Ended(outcome) => OutcomeInv(w, t, row, outcome)
  }

  /** The row of a session is there with the same secret reference until the session itself deletes it. */
  predicate SessionInv(w: World, t: Session) {
    if t.pc.Unmap? || t.pc == Ended(Removed) then t.id !in w.rows
    else
      && t.id in w.rows
      && var row := w.rows[t.id];
         row.cred == t.seen.cred && row.product == t.seen.product && row.edits >= t.seen.edits && PcInv(w, t, row)
  }

  // ----- what the two stores keep between them

  ghost predicate RefsSeparate(w: World) {
    && (forall a, b :: a in w.rows && b in w.rows && a != b && w.rows[a].cred.Some? ==>
          w.rows[a].cred != w.rows[b].cred)
    && (forall a, b :: a in w.rows && b in w.cleanup ==> w.rows[a].cred != Some(w.cleanup[b].ref))
  }

  ghost predicate Found(w: World, ref: Ref) {
    || (exists id :: id in w.rows && w.rows[id].cred == Some(ref))
    || (exists id :: id in w.cleanup && w.cleanup[id].ref == ref)
  }

  /** Every stored secret can be found from an account row or a cleanup record. */
  ghost predicate NoOrphans(w: World) {
    forall ref :: ref in w.secrets ==> Found(w, ref)
  }

  ghost predicate StoresInv(w: World) {
    RefsSeparate(w) && NoOrphans(w)
  }

  lemma PutKeepsStores(w: World, id: Id, ref: Ref, secret: Secret, a: Answer)
    requires StoresInv(w) && id in w.rows && w.rows[id].cred == Some(ref)
    ensures StoresInv(PutSecret(w, ref, secret, a))
  {
    var v := PutSecret(w, ref, secret, a);
    forall r | r in v.secrets
      ensures Found(v, r)
    {
      assert r != ref ==> Found(w, r);
    }
  }

  lemma DropKeepsStores(w: World, ref: Ref, a: Answer)
    requires StoresInv(w)
    ensures StoresInv(DropSecret(w, ref, a))
  {
    var v := DropSecret(w, ref, a);
    forall r | r in v.secrets
      ensures Found(v, r)
    {
      assert Found(w, r);
    }
  }

  /** Rewriting a row without changing its secret reference. */
  lemma RewriteKeepsStores(w: World, id: Id, row: Row)
    requires StoresInv(w) && id in w.rows && row.cred == w.rows[id].cred
    ensures StoresInv(w.(rows := w.rows[id := row]))
  {
    var v := w.(rows := w.rows[id := row]);
    forall r | r in v.secrets
      ensures Found(v, r)
    {
      assert Found(w, r);
      if i :| i in w.rows && w.rows[i].cred == Some(r) {
        assert i in v.rows && v.rows[i].cred == Some(r);
      }
    }
  }

  lemma SetStateKeepsStores(w: World, id: Id, status: Status, expires: bool, code: Code)
    requires StoresInv(w)
    ensures StoresInv(SetState(w, id, status, expires, code))
  {
    if id in w.rows {
      RewriteKeepsStores(w, id, w.rows[id].(status := status, expires := expires, code := code));
    }
  }

  lemma DeleteRowKeepsStores(w: World, id: Id)
    requires StoresInv(w) && id in w.rows && SecretIs(w, w.rows[id].cred, None)
    ensures StoresInv(w.(rows := w.rows - {id}))
  {
    var v := w.(rows := w.rows - {id});
    forall r | r in v.secrets
      ensures Found(v, r)
    {
      assert Found(w, r);
      if i :| i in w.rows && w.rows[i].cred == Some(r) {
        assert i in v.rows && v.rows[i].cred == Some(r);
      }
    }
  }

  lemma ForgetKeepsStores(w: World, id: Id)
    requires StoresInv(w) && id in w.cleanup && w.cleanup[id].ref !in w.secrets
    ensures StoresInv(w.(cleanup := w.cleanup - {id}))
  {
    var v := w.(cleanup := w.cleanup - {id});
    forall r | r in v.secrets
      ensures Found(v, r)
    {
      assert Found(w, r);
      if i :| i in w.cleanup && w.cleanup[i].ref == r {
        assert i in v.cleanup && v.cleanup[i].ref == r;
      }
    }
  }

  // ----- every step keeps what it needs

  lemma ConnectKeepsStores(w: World, t: Session, a: Answer)
    requires StoresInv(w) && SessionInv(w, t) && t.request.Connect? && Connecting(t.pc)
    ensures StoresInv(ActConnect(w, t, a).world)
  {
    hide StoresInv, PcInv, CanFinalize, PutSecret, DropSecret;
    if t.seen.cred.Some? {
      var ref := t.seen.cred.value;
      DropKeepsStores(w, ref, a);
      PutKeepsStores(w, t.id, ref, Key(t.request.key), a);
      SetStateKeepsStores(w, t.id, Error, false, RollbackFailed);
      RewriteKeepsStores(w, t.id, Finalized(w.rows[t.id], t.request.identity));
      if t.pc.Rollback? && t.pc.previous.Some? {
        PutKeepsStores(w, t.id, ref, Key(t.pc.previous.value), a);
      }
    }
  }

  lemma ConnectKeepsSession(w: World, t: Session, a: Answer)
    requires RefsSeparate(w) && SessionInv(w, t) && t.request.Connect? && Connecting(t.pc)
    ensures var r := ActConnect(w, t, a); SessionInv(r.world, t.(pc := r.pc))
  {
    hide RefsSeparate, CanFinalize;
  }

  lemma DrainKeepsStores(w: World, t: Session, a: Answer)
    requires StoresInv(w) && SessionInv(w, t) && Draining(t.pc)
    ensures StoresInv(ActDrain(w, t, a).world)
  {
    hide StoresInv, DropSecret;
    if t.pc.DrainDelete? {
      DropKeepsStores(w, t.pc.ref, a);
    }
    if t.pc.DrainForget? {
      ForgetKeepsStores(w, t.id);
    }
  }

  lemma DrainKeepsSession(w: World, t: Session, a: Answer)
    requires RefsSeparate(w) && SessionInv(w, t) && Draining(t.pc)
    ensures var r := ActDrain(w, t, a); SessionInv(r.world, t.(pc := r.pc))
  {
    if t.pc.DrainDelete? {
      assert w.rows[t.id].cred != Some(w.cleanup[t.id].ref);
    }
    hide RefsSeparate;
  }

  lemma RemoveKeepsStores(w: World, t: Session, a: Answer)
    requires StoresInv(w) && SessionInv(w, t) && Removing(t.pc)
    ensures StoresInv(ActRemove(w, t, a).world)
  {
    hide StoresInv, DropSecret, SetState;
    SetStateKeepsStores(w, t.id, Revoked, Expiry(t), NoCode);
    if t.pc.Mark? {
      SetStateKeepsStores(w, t.id, t.pc.status, Expiry(t), t.pc.code);
    }
    if t.seen.cred.Some? {
      DropKeepsStores(w, t.seen.cred.value, a);
    }
    if t.pc.DeleteRow? {
      DeleteRowKeepsStores(w, t.id);
    }
  }

  lemma RemoveKeepsSession(w: World, t: Session, a: Answer)
    requires SessionInv(w, t) && Removing(t.pc)
    ensures var r := ActRemove(w, t, a); SessionInv(r.world, t.(pc := r.pc))
  {
  }

  lemma RefreshKeepsStores(w: World, t: Session, a: Answer)
    requires StoresInv(w) && SessionInv(w, t) && Refreshing(t.pc)
    ensures StoresInv(ActRefresh(w, t, a).world)
  {
    hide StoresInv, PutSecret, SetState;
    if t.pc.Promote? {
      SetStateKeepsStores(w, t.id, Connected, t.pc.expires, NoCode);
    }
    if t.pc.PutRotated? {
      PutKeepsStores(w, t.id, t.seen.cred.value, Key(t.pc.key), a);
    }
  }

  lemma RefreshKeepsSession(w: World, t: Session, a: Answer)
    requires SessionInv(w, t) && Refreshing(t.pc)
    ensures var r := ActRefresh(w, t, a); SessionInv(r.world, After(t, a, r.pc))
  {
  }

  predicate Acting(pc: Pc) {
    Connecting(pc) || Draining(pc) || Removing(pc) || Refreshing(pc)
  }

  lemma ActKeeps(w: World, t: Session, a: Answer)
    requires StoresInv(w) && SessionInv(w, t) && Acting(t.pc)
    ensures var r := Act(w, t, a); StoresInv(r.world) && SessionInv(r.world, After(t, a, r.pc))
  {
    assert Connecting(t.pc) ==> t.request.Connect?;
    hide SessionInv, RefsSeparate, NoOrphans, ActConnect, ActDrain, ActRemove, ActRefresh;
    if Connecting(t.pc) {
      ConnectKeepsStores(w, t, a);
      ConnectKeepsSession(w, t, a);
    } else if Draining(t.pc) {
      DrainKeepsStores(w, t, a);
      DrainKeepsSession(w, t, a);
    } else if Removing(t.pc) {
      RemoveKeepsStores(w, t, a);
      RemoveKeepsSession(w, t, a);
    } else {
      RefreshKeepsStores(w, t, a);
      RefreshKeepsSession(w, t, a);
    }
  }

  // ----- and stays on its own account

  /** Only the session's own row, cleanup record and secrets change; a foreign secret is at most deleted. */
  ghost predicate Local(w: World, v: World, t: Session) {
    && (forall j :: j != t.id ==>
          (j in v.rows <==> j in w.rows) && (j in w.rows && j in v.rows ==> v.rows[j] == w.rows[j]))
    && (forall j :: j != t.id ==> (j in v.cleanup <==> j in w.cleanup))
    && (forall j :: j in v.cleanup ==> j in w.cleanup && v.cleanup[j] == w.cleanup[j])
    && (t.id in v.rows ==> t.id in w.rows)
    && (forall r :: Some(r) != t.seen.cred && r in v.secrets ==> r in w.secrets && v.secrets[r] == w.secrets[r])
    && (forall r :: Some(r) != t.seen.cred && r in w.secrets && r !in v.secrets ==>
          t.id in w.cleanup && w.cleanup[t.id].ref == r)
  }

  lemma ConnectIsLocal(w: World, t: Session, a: Answer)
    requires t.request.Connect? && t.id in w.rows
    ensures Local(w, ActConnect(w, t, a).world, t)
  {
    hide CanFinalize, PutSecret, DropSecret, SetState, Finalized;
    if t.seen.cred.Some? {
      var ref := t.seen.cred.value;
      OwnCallsAreLocal(w, t, ref, Key(t.request.key), a);
      if t.pc.Rollback? && t.pc.previous.Some? {
        OwnCallsAreLocal(w, t, ref, Key(t.pc.previous.value), a);
      }
      RewriteIsLocal(w, t, Finalized(w.rows[t.id], t.request.identity));
      NoteIsLocal(w, t, Error, false, RollbackFailed);
    }
    NothingIsLocal(w, t);
    hide Local;
  }

  lemma NothingIsLocal(w: World, t: Session)
    ensures Local(w, w, t)
  {
  }

  lemma OwnCallsAreLocal(w: World, t: Session, ref: Ref, secret: Secret, a: Answer)
    requires t.seen.cred == Some(ref)
    ensures Local(w, PutSecret(w, ref, secret, a), t) && Local(w, DropSecret(w, ref, a), t)
  {
  }

  lemma RewriteIsLocal(w: World, t: Session, row: Row)
    requires t.id in w.rows
    ensures Local(w, w.(rows := w.rows[t.id := row]), t)
  {
  }

  lemma NoteIsLocal(w: World, t: Session, status: Status, expires: bool, code: Code)
    ensures Local(w, SetState(w, t.id, status, expires, code), t)
  {
  }

  lemma DrainIsLocal(w: World, t: Session, a: Answer)
    requires SessionInv(w, t)
    ensures Local(w, ActDrain(w, t, a).world, t)
  {
    hide Established;
  }

  lemma RemoveIsLocal(w: World, t: Session, a: Answer)
    ensures Local(w, ActRemove(w, t, a).world, t)
  {
  }

  lemma RefreshIsLocal(w: World, t: Session, a: Answer)
    ensures Local(w, ActRefresh(w, t, a).world, t)
  {
  }

  lemma ActIsLocal(w: World, t: Session, a: Answer)
    requires SessionInv(w, t) && Acting(t.pc)
    ensures Local(w, Act(w, t, a).world, t)
  {
    assert Connecting(t.pc) ==> t.id in w.rows;
    hide SessionInv, Local, ActConnect, ActDrain, ActRemove, ActRefresh;
    if Connecting(t.pc) && t.request.Connect? {
      ConnectIsLocal(w, t, a);
    } else if Draining(t.pc) {
      DrainIsLocal(w, t, a);
    } else if Removing(t.pc) {
      RemoveIsLocal(w, t, a);
    } else {
      RefreshIsLocal(w, t, a);
    }
  }

  /** Nothing a session relies on is different. */
  ghost predicate SameFor(w: World, v: World, u: Session) {
    && (u.id in v.rows <==> u.id in w.rows) && (u.id in w.rows && u.id in v.rows ==> v.rows[u.id] == w.rows[u.id])
    && (u.id in v.cleanup <==> u.id in w.cleanup)
    && (u.id in v.cleanup && u.id in w.cleanup ==> v.cleanup[u.id] == w.cleanup[u.id])
    && (u.id in w.cleanup && w.cleanup[u.id].ref in v.secrets ==> w.cleanup[u.id].ref in w.secrets)
    && (u.id in w.rows && u.seen.cred.Some? && u.seen.cred == w.rows[u.id].cred ==>
          && (u.seen.cred.value in v.secrets <==> u.seen.cred.value in w.secrets)
          && (u.seen.cred.value in w.secrets && u.seen.cred.value in v.secrets ==>
                v.secrets[u.seen.cred.value] == w.secrets[u.seen.cred.value]))
  }

  lemma LocalIsSame(w: World, v: World, t: Session, u: Session)
    requires RefsSeparate(w) && Local(w, v, t) && t.id in w.rows && w.rows[t.id].cred == t.seen.cred
    requires t.id != u.id
    ensures SameFor(w, v, u)
  {
  }

  lemma SameKeepsSession(w: World, v: World, u: Session)
    requires SameFor(w, v, u) && SessionInv(w, u)
    ensures SessionInv(v, u)
  {
    hide Untouched;
  }

  lemma LocalKeepsOthers(w: World, v: World, t: Session, u: Session)
    requires RefsSeparate(w) && Local(w, v, t) && SessionInv(w, u) && t.id in w.rows && w.rows[t.id].cred == t.seen.cred
    requires t.id != u.id
    ensures SessionInv(v, u)
  {
    LocalIsSame(w, v, t, u);
    SameKeepsSession(w, v, u);
  }

  // ----- writers that hold no lock

  /** A second connect preparing an identity that has a row: it is set back to pending. */
  function Repended(row: Row): Row {
    row.(status := Error, code := AccessPending, expires := false, edits := row.edits + 1)
  }

  /** A reader writing down that the connected account it read, which had an expiry date, is past it. */
  function MarkedExpired(row: Row): Row {
    row.(status := Expired, code := CredentialExpired, expires := true, edits := row.edits + 1)
  }

  function NewRow(id: Id, product: Product, identity: nat): Row {
    Row(product, identity, if RequiresCredential(product) then Some(OfAccount(id)) else None, Error, AccessPending,
        false, 0)
  }

  /** Everything named after an account id is named after one that has been given out. */
  ghost predicate NamesBelow(w: World, next: Id) {
    && (forall id :: id in w.rows ==>
          && id < next
          && (w.rows[id].cred.Some? && w.rows[id].cred.value.OfAccount? ==> w.rows[id].cred.value.id < next))
    && (forall id :: id in w.cleanup ==> id < next && (w.cleanup[id].ref.OfAccount? ==> w.cleanup[id].ref.id < next))
  }

  lemma EditKeepsSession(w: World, id: Id, row: Row, u: Session)
    requires SessionInv(w, u) && id in w.rows
    requires row.cred == w.rows[id].cred && row.product == w.rows[id].product
    requires row.edits > w.rows[id].edits && EditCode(row.code)
    ensures SessionInv(w.(rows := w.rows[id := row]), u)
  {
    var v := w.(rows := w.rows[id := row]);
    if u.id != id {
      SameKeepsSession(w, v, u);
    }
  }

  lemma InsertKeepsSession(w: World, id: Id, row: Row, u: Session)
    requires SessionInv(w, u) && u.id != id
    ensures SessionInv(w.(rows := w.rows[id := row]), u)
  {
    SameKeepsSession(w, w.(rows := w.rows[id := row]), u);
  }

  lemma InsertKeepsStores(w: World, next: Id, product: Product, identity: nat)
    requires StoresInv(w) && NamesBelow(w, next)
    ensures var v := w.(rows := w.rows[next := NewRow(next, product, identity)]);
            StoresInv(v) && NamesBelow(v, next + 1)
  {
    var v := w.(rows := w.rows[next := NewRow(next, product, identity)]);
    forall r | r in v.secrets
      ensures Found(v, r)
    {
      assert Found(w, r);
      if i :| i in w.rows && w.rows[i].cred == Some(r) {
        assert i in v.rows && v.rows[i].cred == Some(r);
      }
    }
  }
}
