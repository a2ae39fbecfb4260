/** The locked operations as the service runs them, call by call on the two stores, with their early returns. */
module AccountService {
  import opened Common
  import opened AccountData

  /** How many calls a session can still make; every call brings it closer to its end. */
  function CallsLeft(pc: Pc): nat {
    match pc
    case GetOld => 11
    case Put(_) => 10
    case Finalize(_) => 9
    case Rollback(_, _) => 8
    case Drain => 7
    case DrainDelete(_) => 6
    case DrainForget(_) => 5
    case Access => 4
    case AskProvider => 4
    case SetRevoked => 3
    case PutRotated(_, _) => 3
    case DeleteSecret => 2
    case Promote(_, _) => 2
    case MarkRollback(_) => 1
    case DeleteRow => 1
    case Mark(_, _) => 1
    case Unmap => 0
    case Ended(_) => 0
  }

  predicate InPlay(t: Session) {
    Acting(t.pc) && (Connecting(t.pc) ==> t.request.Connect?)
  }

  /** Every session ends: no call leads to one with as many calls ahead. */
  lemma EveryCallCounts(w: World, t: Session, a: Answer)
    requires InPlay(t)
    ensures CallsLeft(Act(w, t, a).pc) < CallsLeft(t.pc)
    ensures Act(w, t, a).pc.Ended? || Act(w, t, a).pc.Unmap? || InPlay(After(t, a, Act(w, t, a).pc))
  {
    hide CanFinalize, PutSecret, DropSecret, SetState;
  }

  /** A session played to its end without interruption, the k-th call answered by `answers(k)`. */
  function Play(w: World, t: Session, answers: nat -> Answer, k: nat): Acted
    decreases CallsLeft(t.pc)
  {
    if !InPlay(t) then Acted(w, t.pc)
    else
      EveryCallCounts(w, t, answers(k));
      var r := Act(w, t, answers(k));
      Play(r.world, After(t, answers(k), r.pc), answers, k + 1)
  }

  /** An uninterrupted session keeps both stores in order and ends as its outcome says. */
  lemma {:induction false} PlayKeeps(w: World, t: Session, answers: nat -> Answer, k: nat)
    requires StoresInv(w) && SessionInv(w, t) && (InPlay(t) || t.pc.Ended? || t.pc.Unmap?)
    ensures var r := Play(w, t, answers, k);
            && StoresInv(r.world) && (r.pc.Ended? || r.pc.Unmap?)
            && exists heard :: SessionInv(r.world, t.(pc := r.pc, heard := heard))
    decreases CallsLeft(t.pc)
  {
    hide StoresInv, SessionInv, Act, CallsLeft, Acting, Connecting;
    if InPlay(t) {
      EveryCallCounts(w, t, answers(k));
      ActKeeps(w, t, answers(k));
      var r := Act(w, t, answers(k));
      PlayKeeps(r.world, After(t, answers(k), r.pc), answers, k + 1);
    }
  }

  /** The call a session makes at a given point, and what is left to play. */
  lemma Played(w: World, t: Session, answers: nat -> Answer, k: nat)
    requires InPlay(t)
    ensures var r := Act(w, t, answers(k));
            Play(w, t, answers, k) == Play(r.world, After(t, answers(k), r.pc), answers, k + 1)
  {
  }

  lemma PlayedOut(w: World, t: Session, answers: nat -> Answer, k: nat)
    requires t.pc.Ended? || t.pc.Unmap?
    ensures Play(w, t, answers, k) == Acted(w, t.pc)
  {
  }

  class AccountStores {
    var rows: map<Id, Row>
    var cleanup: map<Id, Cleanup>
    var secrets: map<Ref, Secret>

    function Contents(): World
      reads this
    {
      World(rows, cleanup, secrets)
    }

    constructor (w: World)
      ensures Contents() == w
    {
      rows, cleanup, secrets := w.rows, w.cleanup, w.secrets;
    }

    // ----- single calls

    method PutCredential(ref: Ref, secret: Secret, a: Answer) returns (ok: bool)
      modifies this
      ensures Contents() == PutSecret(old(Contents()), ref, secret, a) && ok == a.Works?
    {
      if a.Works? || a.FailsAfter? {
        secrets := secrets[ref := secret];
      }
      return a.Works?;
    }

    method DeleteCredential(ref: Ref, a: Answer) returns (ok: bool)
      modifies this
      ensures Contents() == DropSecret(old(Contents()), ref, a) && ok == a.Works?
    {
      if a.Works? || a.FailsAfter? {
        secrets := secrets - {ref};
      }
      return a.Works?;
    }

    method SetAccountState(id: Id, status: Status, expires: bool, code: Code, a: Answer) returns (ok: bool)
      modifies this
      ensures ok == (a.Works? && id in old(rows))
      ensures Contents() == if ok then SetState(old(Contents()), id, status, expires, code) else old(Contents())
    {
      ok := a.Works? && id in rows;
      if ok {
        rows := rows[id := rows[id].(status := status, expires := expires, code := code)];
      }
    }

    method DeleteMetadata(id: Id, a: Answer) returns (ok: bool)
      modifies this
      ensures ok == (a.Works? && id in old(rows) && id !in old(cleanup))
      ensures Contents() == if ok then old(Contents()).(rows := old(rows) - {id}) else old(Contents())
    {
      ok := a.Works? && id in rows && id !in cleanup;
      if ok {
        rows := rows - {id};
      }
    }

    // ----- clearing up and rolling back

    /** Deletes the secret a migration left behind, then its record. */
    method DrainCredentialCleanup(t: Session, answers: nat -> Answer, k: nat) returns (ok: bool, calls: nat)
      requires t.pc == Drain
      modifies this
      ensures Play(old(Contents()), t, answers, k)
           == Play(Contents(), t.(pc := if ok then AfterDrain(t) else DrainFails(t)), answers, calls)
    {
      hide Play, SetState;
      Played(Contents(), t, answers, k);
      if !answers(k).Works? {
        return false, k + 1;
      }
      if t.id !in cleanup {
        return true, k + 1;
      }
      if !cleanup[t.id].known {
        return false, k + 1;
      }
      var ref := cleanup[t.id].ref;
      Played(Contents(), t.(pc := DrainDelete(ref)), answers, k + 1);
      var deleted := DeleteCredential(ref, answers(k + 1));
      if !deleted {
        return false, k + 2;
      }
      Played(Contents(), t.(pc := DrainForget(ref)), answers, k + 2);
      if !answers(k + 2).Works? {
        return false, k + 3;
      }
      cleanup := cleanup - {t.id};
      return true, k + 3;
    }

    /** Undoes a failed connect: the old key back or the new one away, then the row if it was new. */
    method UndoConnect(t: Session, previous: Option<nat>, wrote: bool, answers: nat -> Answer, k: nat) returns (end: Pc)
      requires t.request.Connect? && t.seen.cred.Some? && t.pc == Rollback(previous, wrote)
      modifies this
      ensures Acted(Contents(), end) == Play(old(Contents()), t, answers, k)
    {
      hide Play, CanFinalize, PutSecret, DropSecret, SetState;
      Played(Contents(), t, answers, k);
      var ref := t.seen.cred.value;
      var restored;
      if previous.Some? {
        restored := PutCredential(ref, Key(previous.value), answers(k));
      } else {
        restored := DeleteCredential(ref, answers(k));
      }
      if !restored {
        var undo := Undo(previous, wrote, TakesEffect(answers(k)));
        Played(Contents(), t.(pc := MarkRollback(undo)), answers, k + 1);
        var edits := if t.id in rows then rows[t.id].edits else 0;
        var marked := SetAccountState(t.id, Error, false, RollbackFailed, answers(k + 1));
        end := Ended(if marked then Marked(undo, edits) else Unmarked(undo));
      } else if t.isNew {
        Played(Contents(), t.(pc := DeleteRow), answers, k + 1);
        var deleted := DeleteMetadata(t.id, answers(k + 1));
        end := if deleted then Unmap else Ended(Failed);
      } else {
        end := Ended(RolledBack(previous));
      }
      PlayedOut(Contents(), t.(pc := end), answers, if end == Ended(RolledBack(previous)) then k + 1 else k + 2);
    }

    // ----- the operations, from the re-read on

    method MarkAndFail(t: Session, status: Status, code: Code, answers: nat -> Answer, k: nat) returns (end: Pc)
      requires t.pc == Mark(status, code)
      modifies this
      ensures Acted(Contents(), end) == Play(old(Contents()), t, answers, k)
    {
      hide Play;
      Played(Contents(), t, answers, k);
      var _ := SetAccountState(t.id, status, Expiry(t), code, answers(k));
      end := Ended(Failed);
      PlayedOut(Contents(), t.(pc := end), answers, k + 1);
    }

    /** The part of a connect that writes: secret, metadata, cleanup, each with its way back. */
    method StoreKey(t: Session, previous: Option<nat>, answers: nat -> Answer, k: nat) returns (end: Pc)
      requires t.request.Connect? && t.seen.cred.Some? && t.pc == Put(previous)
      modifies this
      ensures Acted(Contents(), end) == Play(old(Contents()), t, answers, k)
    {
      hide Play, CanFinalize, PutSecret;
      Played(Contents(), t, answers, k);
      var persisted := PutCredential(t.seen.cred.value, Key(t.request.key), answers(k));
      if !persisted {
        var wrote := TakesEffect(answers(k));
        end := UndoConnect(t.(pc := Rollback(previous, wrote)), previous, wrote, answers, k + 1);
        return;
      }
      Played(Contents(), t.(pc := Finalize(previous)), answers, k + 1);
      if !answers(k + 1).Works? || !CanFinalize(Contents(), t.id, t.request.product, t.request.identity) {
        end := UndoConnect(t.(pc := Rollback(previous, true)), previous, true, answers, k + 2);
        return;
      }
      Finalizable(Contents(), t.id, t.request.product, t.request.identity);
      rows := rows[t.id := Finalized(rows[t.id], t.request.identity)];
      end := CleanUpAndEnd(t.(pc := Drain), answers, k + 2);
    }

    method CleanUpAndEnd(t: Session, answers: nat -> Answer, k: nat) returns (end: Pc)
      requires t.request.Connect? && t.pc == Drain
      modifies this
      ensures Acted(Contents(), end) == Play(old(Contents()), t, answers, k)
    {
      hide Play;
      var drained, calls := DrainCredentialCleanup(t, answers, k);
      if drained {
        end := Ended(Succeeded);
        PlayedOut(Contents(), t.(pc := end), answers, calls);
      } else {
        end := MarkAndFail(t.(pc := DrainFails(t)), Error, OtherCode(1), answers, calls);
      }
    }

    method ConnectLocked(t: Session, answers: nat -> Answer) returns (end: Pc)
      requires t.request.Connect? && t.pc == FirstPc(t.request, t.seen, t.isNew)
      modifies this
      ensures Acted(Contents(), end) == Play(old(Contents()), t, answers, 0)
    {
      hide Play;
      Played(Contents(), t, answers, 0);
      if t.seen.cred.None? {
        end := Ended(Refused);
        PlayedOut(Contents(), t.(pc := end), answers, 1);
        return;
      }
      if t.isNew {
        end := StoreKey(t, None, answers, 0);
        return;
      }
      if !answers(0).Works? {
        end := Ended(Refused);
        PlayedOut(Contents(), t.(pc := end), answers, 1);
        return;
      }
      var ref := t.seen.cred.value;
      var previous := if ref in secrets && secrets[ref].Key? then Some(secrets[ref].value) else None;
      end := StoreKey(t.(pc := Put(previous)), previous, answers, 1);
    }

    /** The end of a disconnect: the secret first, the row only when it is gone. */
    method RemoveAccount(t: Session, answers: nat -> Answer, k: nat) returns (end: Pc)
      requires t.pc == DeleteSecret
      modifies this
      ensures Acted(Contents(), end) == Play(old(Contents()), t, answers, k)
    {
      hide Play, DropSecret;
      Played(Contents(), t, answers, k);
      if t.seen.cred.Some? {
        var gone := DeleteCredential(t.seen.cred.value, answers(k));
        if !gone {
          var noted := t.(pc := Mark(DisconnectPending, OtherCode(3)));
          end := MarkAndFail(noted, DisconnectPending, OtherCode(3), answers, k + 1);
          return;
        }
      }
      Played(Contents(), t.(pc := DeleteRow), answers, k + 1);
      var deleted := DeleteMetadata(t.id, answers(k + 1));
      end := if deleted then Unmap else Ended(Failed);
      PlayedOut(Contents(), t.(pc := end), answers, k + 2);
    }

    method DisconnectLocked(t: Session, answers: nat -> Answer) returns (end: Pc)
      requires t.request.Disconnect? && t.pc == Drain
      modifies this
      ensures Acted(Contents(), end) == Play(old(Contents()), t, answers, 0)
    {
      hide Play;
      var drained, calls := DrainCredentialCleanup(t, answers, 0);
      if !drained {
        end := MarkAndFail(t.(pc := DrainFails(t)), DisconnectPending, OtherCode(1), answers, calls);
        return;
      }
      if t.request.metadataOnly {
        if t.seen.product.Subscription? {
          end := MarkAndFail(t.(pc := AfterDrain(t)), DisconnectPending, OtherCode(0), answers, calls);
        } else {
          end := RemoveAccount(t.(pc := DeleteSecret), answers, calls);
        }
        return;
      }
      end := RevokeAndRemove(t.(pc := Access), answers, calls);
    }

    method RevokeAndRemove(t: Session, answers: nat -> Answer, k: nat) returns (end: Pc)
      requires t.pc == Access
      modifies this
      ensures Acted(Contents(), end) == Play(old(Contents()), t, answers, k)
    {
      hide Play;
      Played(Contents(), t, answers, k);
      if answers(k).FailsBefore? {
        var noted := t.(pc := Mark(DisconnectPending, OtherCode(2)));
        end := MarkAndFail(noted, DisconnectPending, OtherCode(2), answers, k + 1);
        return;
      }
      if !answers(k).Works? {
        end := Ended(Failed);
        PlayedOut(Contents(), t.(pc := end), answers, k + 1);
        return;
      }
      Played(Contents(), t.(pc := SetRevoked), answers, k + 1);
      var revoked := SetAccountState(t.id, Revoked, Expiry(t), NoCode, answers(k + 1));
      if !revoked {
        end := Ended(Failed);
        PlayedOut(Contents(), t.(pc := end), answers, k + 2);
        return;
      }
      end := RemoveAccount(t.(pc := DeleteSecret), answers, k + 2);
    }

    method RefreshLocked(t: Session, answers: nat -> Answer) returns (end: Pc)
      requires t.request.Refresh? && t.pc == FirstPc(t.request, t.seen, t.isNew)
      modifies this
      ensures Acted(Contents(), end) == Play(old(Contents()), t, answers, 0)
    {
      hide Play, PutSecret;
      if t.seen.status == Revoked || t.seen.status == DisconnectPending {
        end := Ended(Refused);
        PlayedOut(Contents(), t, answers, 0);
        return;
      }
      Played(Contents(), t, answers, 0);
      var told := t.(heard := Some(answers(0)));
      match answers(0) {
        case Denies(revoked) =>
          var status := if revoked then Revoked else Error;
          end := MarkAndFail(told.(pc := Mark(status, OtherCode(4))), status, OtherCode(4), answers, 1);
        case Provides(key, expiry) =>
          if key.Some? != RequiresCredential(t.seen.product) || key.Some? != t.seen.cred.Some? {
            end := Ended(Refused);
            PlayedOut(Contents(), told.(pc := end), answers, 1);
          } else if key.Some? {
            var expires := expiry || t.seen.expires;
            end := RotateKey(told.(pc := PutRotated(key.value, expires)), key.value, expires, answers, 1);
          } else {
            end := PromoteAccount(told.(pc := Promote(None, t.seen.expires)), t.seen.expires, answers, 1);
          }
        case _ =>
          end := Ended(Failed);
          PlayedOut(Contents(), told.(pc := end), answers, 1);
      }
    }

    method RotateKey(t: Session, key: nat, expires: bool, answers: nat -> Answer, k: nat) returns (end: Pc)
      requires t.pc == PutRotated(key, expires) && t.seen.cred.Some?
      modifies this
      ensures Acted(Contents(), end) == Play(old(Contents()), t, answers, k)
    {
      hide Play, PutSecret;
      Played(Contents(), t, answers, k);
      var persisted := PutCredential(t.seen.cred.value, Key(key), answers(k));
      if persisted {
        end := PromoteAccount(t.(pc := Promote(Some(key), expires)), expires, answers, k + 1);
      } else {
        end := MarkAndFail(t.(pc := Mark(Error, OtherCode(5))), Error, OtherCode(5), answers, k + 1);
      }
    }

    /** Connected is written only after a rotated credential is durable. */
    method PromoteAccount(t: Session, expires: bool, answers: nat -> Answer, k: nat) returns (end: Pc)
      requires t.pc.Promote? && t.pc.expires == expires
      modifies this
      ensures Acted(Contents(), end) == Play(old(Contents()), t, answers, k)
    {
      hide Play;
      Played(Contents(), t, answers, k);
      var promoted := SetAccountState(t.id, Connected, expires, NoCode, answers(k));
      end := Ended(if promoted then Succeeded else Failed);
      PlayedOut(Contents(), t.(pc := end), answers, k + 1);
    }
  }

  lemma Finalizable(w: World, id: Id, product: Product, identity: nat)
    requires CanFinalize(w, id, product, identity)
    ensures id in w.rows
  {
  }
}
