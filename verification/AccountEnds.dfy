/** What refreshing, disconnecting and connecting an account come to, from the answers of the calls alone. */
module AccountEnds {
  import opened Common
  import opened AccountData
  import opened AccountService

  // ----- refresh

  /** The key the provider hands out fits the product and the row. */
  predicate FitsRow(row: Row, key: Option<nat>) {
    key.Some? == RequiresCredential(row.product) && key.Some? == row.cred.Some?
  }

  lemma MarkPlayed(w: World, t: Session, status: Status, code: Code, answers: nat -> Answer, k: nat)
    requires t.pc == Mark(status, code) && t.id in w.rows
    ensures var r := Play(w, t, answers, k);
            && r.pc == Ended(Failed) && r.world.secrets == w.secrets && r.world.cleanup == w.cleanup
            && r.world.rows.Keys == w.rows.Keys
            && r.world.rows[t.id].status == (if answers(k).Works? then status else w.rows[t.id].status)
            && (answers(k).Works? ==>
                  r.world.rows[t.id].code == code
                  && r.world.rows[t.id].expires == (if t.request.Connect? then false else t.seen.expires))
  {
    hide Play;
    Played(w, t, answers, k);
    var r := Act(w, t, answers(k));
    PlayedOut(r.world, After(t, answers(k), r.pc), answers, k + 1);
  }

  lemma PromotePlayed(w: World, t: Session, answers: nat -> Answer, k: nat)
    requires t.pc.Promote? && t.id in w.rows
    ensures var r := Play(w, t, answers, k);
            && r.pc == Ended(if answers(k).Works? then Succeeded else Failed)
            && r.world.secrets == w.secrets && t.id in r.world.rows
            && (answers(k).Works? ==>
                  r.world.rows[t.id] == w.rows[t.id].(status := Connected, code := NoCode, expires := t.pc.expires))
  {
    hide Play;
    Played(w, t, answers, k);
    var r := Act(w, t, answers(k));
    PlayedOut(r.world, After(t, answers(k), r.pc), answers, k + 1);
  }

  /** A denial touches no secret, and is noted on the row as the provider put it if the note can be written. */
  lemma DeniedRefresh(w: World, t: Session, answers: nat -> Answer, k: nat)
    requires t.pc == AskProvider && t.request.Refresh? && t.id in w.rows && answers(k).Denies?
    ensures var r := Play(w, t, answers, k);
            && r.pc == Ended(Failed) && r.world.secrets == w.secrets && t.id in r.world.rows
            && r.world.rows[t.id].status == (if !answers(k + 1).Works? then w.rows[t.id].status
                                             else if answers(k).revoked then Revoked else Error)
            && (answers(k + 1).Works? ==> r.world.rows[t.id].expires == t.seen.expires)
  {
    hide Play;
    Played(w, t, answers, k);
    var status := if answers(k).revoked then Revoked else Error;
    var u := After(t, answers(k), Mark(status, OtherCode(4)));
    MarkPlayed(w, u, status, OtherCode(4), answers, k + 1);
  }

  /** A rotated key is stored before the row is promoted, and what happens if either fails. */
  lemma RotatedRefresh(w: World, t: Session, answers: nat -> Answer, k: nat, key: nat, expiry: bool)
    requires t.pc == AskProvider && t.request.Refresh? && t.id in w.rows && w.rows[t.id] == t.seen
    requires answers(k) == Provides(Some(key), expiry) && FitsRow(t.seen, Some(key))
    ensures var r := Play(w, t, answers, k); var ref := t.seen.cred.value;
            && (r.pc == Ended(Succeeded) <==> answers(k + 1).Works? && answers(k + 2).Works?)
            && r.world.secrets == (if TakesEffect(answers(k + 1)) then w.secrets[ref := Key(key)] else w.secrets)
            && t.id in r.world.rows
            && (r.pc == Ended(Succeeded) ==>
                  var expires := expiry || t.seen.expires;
                  r.world.rows[t.id] == t.seen.(status := Connected, code := NoCode, expires := expires))
            && (!answers(k + 1).Works? && answers(k + 2).Works? ==> r.world.rows[t.id].status == Error)
  {
    hide Play;
    Played(w, t, answers, k);
    var u := After(t, answers(k), PutRotated(key, expiry || t.seen.expires));
    Played(w, u, answers, k + 1);
    var r := Act(w, u, answers(k + 1));
    var v := After(u, answers(k + 1), r.pc);
    if answers(k + 1).Works? {
      PromotePlayed(r.world, v, answers, k + 2);
    } else {
      MarkPlayed(r.world, v, Error, OtherCode(5), answers, k + 2);
    }
  }

  /** A product without a credential: nothing is stored, the row is promoted. */
  lemma KeylessRefresh(w: World, t: Session, answers: nat -> Answer, k: nat, expiry: bool)
    requires t.pc == AskProvider && t.request.Refresh? && t.id in w.rows && w.rows[t.id] == t.seen
    requires answers(k) == Provides(None, expiry) && FitsRow(t.seen, None)
    ensures var r := Play(w, t, answers, k);
            && (r.pc == Ended(Succeeded) <==> answers(k + 1).Works?) && r.world.secrets == w.secrets
            && t.id in r.world.rows
            && (r.pc == Ended(Succeeded) ==> r.world.rows[t.id] == t.seen.(status := Connected, code := NoCode))
  {
    hide Play;
    Played(w, t, answers, k);
    PromotePlayed(w, After(t, answers(k), Promote(None, t.seen.expires)), answers, k + 1);
  }

  /** Anything else the provider says changes nothing. */
  lemma OtherRefresh(w: World, t: Session, answers: nat -> Answer, k: nat)
    requires t.pc == AskProvider && t.request.Refresh? && !answers(k).Denies?
    requires answers(k).Provides? ==> !FitsRow(t.seen, answers(k).key)
    ensures var r := Play(w, t, answers, k); r.world == w && r.pc in {Ended(Refused), Ended(Failed)}
  {
    hide Play;
    Played(w, t, answers, k);
    var r := Act(w, t, answers(k));
    PlayedOut(w, After(t, answers(k), r.pc), answers, k + 1);
  }

  /**
   A refresh succeeds if and only if the provider handed out what the row needs and every call after that worked; then
   the store holds the provider's key, or is as it was if there is none, and the row is connected.
   */
  lemma RefreshSucceedsExactly(w: World, t: Session, answers: nat -> Answer, k: nat)
    requires t.pc == AskProvider && t.request.Refresh? && t.id in w.rows && w.rows[t.id] == t.seen
    ensures var r := Play(w, t, answers, k);
            && (r.pc == Ended(Succeeded)
                <==> && answers(k).Provides? && FitsRow(t.seen, answers(k).key) && answers(k + 1).Works?
                     && (answers(k).key.Some? ==> answers(k + 2).Works?))
            && (r.pc == Ended(Succeeded) ==>
                  && t.id in r.world.rows && r.world.rows[t.id].status == Connected && r.world.rows[t.id].code == NoCode
                  && r.world.rows[t.id].expires == (t.seen.expires || (answers(k).key.Some? && answers(k).expiry))
                  && (answers(k).key.None? ==> r.world.secrets == w.secrets)
                  && (answers(k).key.Some? ==>
                        r.world.secrets == w.secrets[t.seen.cred.value := Key(answers(k).key.value)]))
  {
    hide Play;
    match answers(k) {
      case Denies(_) => DeniedRefresh(w, t, answers, k);
      case Provides(key, expiry) =>
        if !FitsRow(t.seen, key) {
          OtherRefresh(w, t, answers, k);
        } else if key.Some? {
          RotatedRefresh(w, t, answers, k, key.value, expiry);
        } else {
          KeylessRefresh(w, t, answers, k, expiry);
        }
      case _ => OtherRefresh(w, t, answers, k);
    }
  }

  /** The same from the re-read on: an account that is leaving or has left is not refreshed. */
  lemma RefreshFromReRead(w: World, t: Session, answers: nat -> Answer)
    requires t.request.Refresh? && t.pc == FirstPc(t.request, t.seen, t.isNew)
    requires t.id in w.rows && w.rows[t.id] == t.seen
    ensures var r := Play(w, t, answers, 0);
            && (t.seen.status in {Revoked, DisconnectPending} ==> r == Acted(w, Ended(Refused)))
            && (r.pc == Ended(Succeeded)
                <==> && t.seen.status !in {Revoked, DisconnectPending} && answers(0).Provides?
                     && FitsRow(t.seen, answers(0).key) && answers(1).Works?
                     && (answers(0).key.Some? ==> answers(2).Works?))
  {
    hide Play;
    if t.pc.Ended? {
      PlayedOut(w, t, answers, 0);
    } else {
      RefreshSucceedsExactly(w, t, answers, 0);
    }
  }

  // ----- disconnect

  ghost predicate AllWork(answers: nat -> Answer, k: nat) {
    forall i: nat :: k <= i ==> answers(i).Works?
  }

  /** The secret a migration left for this account can be cleaned up. */
  predicate CanDrain(w: World, id: Id) {
    id in w.cleanup ==> w.cleanup[id].known
  }

  /** Clearing up goes through or fails; rows and every other secret are as before. */
  lemma DrainPlayed(w: World, t: Session, answers: nat -> Answer, k: nat) returns (v: World, ok: bool, n: nat)
    requires t.pc == Drain
    ensures Play(w, t, answers, k) == Play(v, t.(pc := if ok then AfterDrain(t) else DrainFails(t)), answers, n)
    ensures v.rows == w.rows && n >= k && (ok ==> t.id !in v.cleanup)
    ensures v.secrets == w.secrets || (t.id in w.cleanup && v.secrets == w.secrets - {w.cleanup[t.id].ref})
    ensures ok && t.id in w.cleanup ==> w.cleanup[t.id].ref !in v.secrets
    ensures AllWork(answers, k) && CanDrain(w, t.id) ==> ok
  {
    hide Play;
    Played(w, t, answers, k);
    if !answers(k).Works? || (t.id in w.cleanup && !w.cleanup[t.id].known) {
      v, ok, n := w, false, k + 1;
    } else if t.id !in w.cleanup {
      v, ok, n := w, true, k + 1;
    } else {
      var ref := w.cleanup[t.id].ref;
      var u := t.(pc := DrainDelete(ref));
      Played(w, u, answers, k + 1);
      v := DropSecret(w, ref, answers(k + 1));
      if !answers(k + 1).Works? {
        ok, n := false, k + 2;
      } else {
        Played(v, u.(pc := DrainForget(ref)), answers, k + 2);
        ok, n := answers(k + 2).Works?, k + 3;
        v := if ok then v.(cleanup := v.cleanup - {t.id}) else v;
      }
    }
  }

  /** Clearing up that cannot begin ends the operation, noted as an error of a connect or a disconnect to retry. */
  lemma DrainFailureIsNoted(w: World, t: Session, answers: nat -> Answer, k: nat)
    requires t.pc == Drain && t.id in w.rows
    requires !answers(k).Works? || (t.id in w.cleanup && !w.cleanup[t.id].known)
    ensures var r := Play(w, t, answers, k);
            && r.pc == Ended(Failed) && r.world.secrets == w.secrets && r.world.cleanup == w.cleanup
            && t.id in r.world.rows
            && r.world.rows[t.id].status == (if !answers(k + 1).Works? then w.rows[t.id].status
                                             else if t.request.Connect? then Error else DisconnectPending)
  {
    hide Play;
    Played(w, t, answers, k);
    var status := if t.request.Connect? then Error else DisconnectPending;
    MarkPlayed(w, t.(pc := Mark(status, OtherCode(1))), status, OtherCode(1), answers, k + 1);
  }

  /** The end of a disconnect: secret, then row; stopping short leaves the row. */
  lemma RemovePlayed(w: World, t: Session, answers: nat -> Answer, k: nat)
    requires t.pc == DeleteSecret && t.id in w.rows && t.id !in w.cleanup
    ensures var r := Play(w, t, answers, k);
            && r.pc in {Unmap, Ended(Failed)} && (r.pc == Unmap <==> t.id !in r.world.rows)
            && (r.pc == Unmap ==> SecretIs(r.world, t.seen.cred, None) && r.world.cleanup == w.cleanup)
            && (AllWork(answers, k) ==> r.pc == Unmap)
  {
    hide Play;
    Played(w, t, answers, k);
    var r := Act(w, t, answers(k));
    var u := After(t, answers(k), r.pc);
    if r.pc.Mark? {
      MarkPlayed(r.world, u, DisconnectPending, OtherCode(3), answers, k + 1);
    } else {
      Played(r.world, u, answers, k + 1);
      var q := Act(r.world, u, answers(k + 1));
      PlayedOut(q.world, After(u, answers(k + 1), q.pc), answers, k + 2);
    }
  }

  lemma RevokePlayed(w: World, t: Session, answers: nat -> Answer, k: nat)
    requires t.pc == Access && t.id in w.rows && t.id !in w.cleanup
    ensures var r := Play(w, t, answers, k);
            && r.pc in {Unmap, Ended(Failed)} && (r.pc == Unmap <==> t.id !in r.world.rows)
            && (r.pc == Unmap ==> SecretIs(r.world, t.seen.cred, None) && r.world.cleanup == w.cleanup)
            && (AllWork(answers, k) ==> r.pc == Unmap)
  {
    hide Play;
    Played(w, t, answers, k);
    var r := Act(w, t, answers(k));
    var u := After(t, answers(k), r.pc);
    if r.pc.Mark? {
      MarkPlayed(w, u, DisconnectPending, OtherCode(2), answers, k + 1);
    } else if r.pc.Ended? {
      PlayedOut(w, u, answers, k + 1);
    } else {
      Played(w, u, answers, k + 1);
      var q := Act(w, u, answers(k + 1));
      var v := After(u, answers(k + 1), q.pc);
      if q.pc.Ended? {
        PlayedOut(q.world, v, answers, k + 2);
      } else {
        RemovePlayed(q.world, v, answers, k + 2);
      }
    }
  }

  /** Local-only disconnecting is not for accounts whose runtime has to log out first. */
  predicate MustLogOut(t: Session) {
    t.request == Disconnect(true) && t.seen.product.Subscription?
  }

  /**
   A disconnect ends with the account gone, row, secret and left-over secret, or with the row kept. It never removes an
   account that has to log out first: that one keeps its secret and is left waiting. Otherwise it goes through whenever
   every call works.
   */
  lemma DisconnectEnds(w: World, t: Session, answers: nat -> Answer, k: nat)
    requires t.pc == Drain && t.request.Disconnect? && t.id in w.rows
    requires RefsSeparate(w) && w.rows[t.id].cred == t.seen.cred
    ensures var r := Play(w, t, answers, k);
            && r.pc in {Unmap, Ended(Failed)} && (r.pc == Unmap <==> t.id !in r.world.rows)
            && (r.pc == Unmap ==> !MustLogOut(t) && SecretIs(r.world, t.seen.cred, None) && t.id !in r.world.cleanup)
            && (MustLogOut(t) && t.seen.cred.Some? ==>
                  (t.seen.cred.value in r.world.secrets <==> t.seen.cred.value in w.secrets))
            && (AllWork(answers, k) && CanDrain(w, t.id) ==>
                  if MustLogOut(t) then r.pc == Ended(Failed) && r.world.rows[t.id].status == DisconnectPending
                  else r.pc == Unmap)
  {
    var v, ok, n := DrainPlayed(w, t, answers, k);
    if t.id in w.cleanup {
      assert w.rows[t.id].cred != Some(w.cleanup[t.id].ref);
    }
    hide Play, RefsSeparate;
    var u := t.(pc := if ok then AfterDrain(t) else DrainFails(t));
    if !ok {
      MarkPlayed(v, u, DisconnectPending, OtherCode(1), answers, n);
    } else if MustLogOut(t) {
      MarkPlayed(v, u, DisconnectPending, OtherCode(0), answers, n);
    } else if t.request.metadataOnly {
      RemovePlayed(v, u, answers, n);
    } else {
      RevokePlayed(v, u, answers, n);
    }
  }

  // ----- connect

  /** When every call works, a connect succeeds: the key presented is stored and the row connected. */
  lemma ConnectSucceeds(w: World, t: Session, answers: nat -> Answer)
    requires t.request.Connect? && t.pc == FirstPc(t.request, t.seen, t.isNew) && t.seen.cred.Some?
    requires t.id in w.rows && w.rows[t.id] == t.seen && AllWork(answers, 0) && CanDrain(w, t.id)
    requires RefsSeparate(w) && CanFinalize(w, t.id, t.request.product, t.request.identity)
    ensures var r := Play(w, t, answers, 0);
            && r.pc == Ended(Succeeded) && r.world.rows == w.rows[t.id := Finalized(t.seen, t.request.identity)]
            && SecretIs(r.world, t.seen.cred, Some(Key(t.request.key))) && t.id !in r.world.cleanup
  {
    if t.isNew {
      KeyPlayed(w, t, None, answers, 0);
    } else {
      hide CanFinalize, RefsSeparate, Play;
      Played(w, t, answers, 0);
      var r := Act(w, t, answers(0));
      KeyPlayed(w, t.(pc := r.pc), r.pc.previous, answers, 1);
    }
  }

  lemma KeyPlayed(w: World, t: Session, previous: Option<nat>, answers: nat -> Answer, k: nat)
    requires t.request.Connect? && t.pc == Put(previous) && t.seen.cred.Some?
    requires t.id in w.rows && w.rows[t.id] == t.seen && AllWork(answers, k) && CanDrain(w, t.id)
    requires RefsSeparate(w) && CanFinalize(w, t.id, t.request.product, t.request.identity)
    ensures var r := Play(w, t, answers, k);
            && r.pc == Ended(Succeeded) && r.world.rows == w.rows[t.id := Finalized(t.seen, t.request.identity)]
            && SecretIs(r.world, t.seen.cred, Some(Key(t.request.key))) && t.id !in r.world.cleanup
  {
    hide Play;
    Played(w, t, answers, k);
    var ref := t.seen.cred.value;
    var v := w.(secrets := w.secrets[ref := Key(t.request.key)]);
    var u := t.(pc := Finalize(previous));
    assert CanFinalize(v, t.id, t.request.product, t.request.identity);
    Played(v, u, answers, k + 1);
    var x := v.(rows := v.rows[t.id := Finalized(t.seen, t.request.identity)]);
    var y := t.(pc := Drain);
    var z, ok, n := DrainPlayed(x, y, answers, k + 2);
    PlayedOut(z, t.(pc := Ended(Succeeded)), answers, n);
  }
}
