/** The registry of one-shot authorization attempts and their shared cancellation flags. */
module Authorization {
  import opened Common

  const MAX_ACTIVE_ATTEMPTS: nat := 8
  const MAX_CANCELLATION_TOMBSTONES: nat := 64

  type AttemptId = string
  type FlagId = nat

  datatype AuthMethod = OAuthPkce | OtherMethod(n: nat)

  datatype Route = Route(provider: nat, product: nat, harness: nat)

  /** An attempt; `flag` names the atomic flag it shares with the cancellation table. */
  datatype Attempt = Attempt(route: Route, auth: AuthMethod, expires: nat, flag: FlagId, state: Option<string>)

  datatype Refusal = NotFound | Expired | Cancelled | StateMismatch | StateRequired | ProviderMismatch | Busy

  datatype Outcome<T> = Yes(value: T) | No(why: Refusal)

  /** `raised` are the flags that have been set, `flags` how many have been made. */
  datatype Registry = Registry(
    attempts: map<AttemptId, Attempt>, cancellations: map<AttemptId, FlagId>, raised: set<FlagId>, flags: FlagId)

  /** The characters that trimming removes: Unicode White_Space. */
  predicate White(c: char) {
    || '\U{9}' <= c <= '\U{D}' || c == ' ' || c == '\U{85}' || c == '\U{A0}' || c == '\U{1680}'
    || '\U{2000}' <= c <= '\U{200A}' || c == '\U{2028}' || c == '\U{2029}' || c == '\U{202F}'
    || c == '\U{205F}' || c == '\U{3000}'
  }

  predicate NeedsState(auth: AuthMethod, state: Option<string>) {
    auth.OAuthPkce? && (state.None? || forall i :: 0 <= i < |state.value| ==> White(state.value[i]))
  }

  // ----- the four operations as functions

  predicate Stale(r: Registry, id: AttemptId, now: nat) {
    id in r.attempts && (r.attempts[id].expires <= now || r.attempts[id].flag in r.raised)
  }

  /** Expired and cancelled attempts go, with their flags. */
  function Swept(r: Registry, now: nat): Registry {
    r.(attempts := map id | id in r.attempts && !Stale(r, id, now) :: r.attempts[id],
       cancellations := map id | id in r.cancellations && !Stale(r, id, now) :: r.cancellations[id])
  }

  /** Flags of attempts that are no longer stored go; more than 64 left over would all go. */
  function Trimmed(r: Registry): Registry {
    var kept := map id | id in r.cancellations && id in r.attempts :: r.cancellations[id];
    r.(cancellations := if |kept| > MAX_CANCELLATION_TOMBSTONES then map[] else kept)
  }

  function Added(
    r: Registry, id: AttemptId, route: Route, auth: AuthMethod, expires: nat, state: Option<string>): Registry
  {
    Registry(r.attempts[id := Attempt(route, auth, expires, r.flags, state)],
             r.cancellations[id := r.flags], r.raised, r.flags + 1)
  }

  datatype Request = Request(
    registered: bool, route: Route, auth: AuthMethod, state: Option<string>, now: nat, ttl: nat)

  predicate Refused(q: Request) {
    !q.registered || NeedsState(q.auth, q.state)
  }

  function Inserted(r: Registry, q: Request, id: AttemptId): Registry {
    if Refused(q) then r
    else
      var swept := Swept(r, q.now);
      if |swept.attempts| >= MAX_ACTIVE_ATTEMPTS then swept
      else Added(Trimmed(swept), id, q.route, q.auth, q.now + q.ttl, q.state)
  }

  function InsertAnswer(r: Registry, q: Request, id: AttemptId): Outcome<AttemptId> {
    if !q.registered then No(ProviderMismatch)
    else if NeedsState(q.auth, q.state) then No(StateRequired)
    else if |Swept(r, q.now).attempts| >= MAX_ACTIVE_ATTEMPTS then No(Busy)
    else Yes(id)
  }

  function Verdict(r: Registry, a: Attempt, route: Route, state: Option<string>, now: nat): Outcome<Attempt> {
    if a.flag in r.raised then No(Cancelled)
    else if a.expires <= now then No(Expired)
    else if a.route != route then No(ProviderMismatch)
    else if NeedsState(a.auth, a.state) then No(StateRequired)
    else if a.state != state then No(StateMismatch)
    else Yes(a)
  }

  function TakeAnswer(r: Registry, id: AttemptId, route: Route, state: Option<string>, now: nat): Outcome<Attempt> {
    if id !in r.attempts then No(NotFound) else Verdict(r, r.attempts[id], route, state, now)
  }

  function Finished(r: Registry, id: AttemptId): Registry {
    r.(cancellations := r.cancellations - {id})
  }

  function Taken(r: Registry, id: AttemptId, route: Route, state: Option<string>, now: nat): Registry {
    if id !in r.attempts then r
    else
      var rest := r.(attempts := r.attempts - {id});
      if TakeAnswer(r, id, route, state, now).Yes? then rest else Finished(rest, id)
  }

  function FlagOf(r: Registry, id: AttemptId): Option<FlagId> {
    if id in r.cancellations then Some(r.cancellations[id])
    else if id in r.attempts then Some(r.attempts[id].flag) else None
  }

  function CancelledBy(r: Registry, id: AttemptId): Registry {
    Registry(r.attempts - {id}, r.cancellations - {id},
             if FlagOf(r, id).Some? then r.raised + {FlagOf(r, id).value} else r.raised, r.flags)
  }

  // ----- the registry

  class AttemptRegistry {
    var attempts: map<AttemptId, Attempt>
    var cancellations: map<AttemptId, FlagId>
    var raised: set<FlagId>
    var flags: FlagId

    function Contents(): Registry
      reads this
    {
      Registry(attempts, cancellations, raised, flags)
    }

    constructor ()
      ensures Contents() == Registry(map[], map[], {}, 0)
    {
      attempts, cancellations, raised, flags := map[], map[], {}, 0;
    }

    /** Collects the stale ids, then removes them one by one. */
    method Sweep(now: nat)
      modifies this
      ensures Contents() == Swept(old(Contents()), now)
    {
      ghost var r := Contents();
      var left := set id | id in attempts && (attempts[id].expires <= now || attempts[id].flag in raised);
      ghost var stale := left;
      while left != {}
        invariant left <= stale && raised == r.raised && flags == r.flags
        invariant attempts == map id | id in r.attempts && (id !in stale || id in left) :: r.attempts[id]
        invariant cancellations == map id | id in r.cancellations && (id !in stale || id in left) :: r.cancellations[id]
        decreases left
      {
        var id :| id in left;
        attempts, cancellations, left := attempts - {id}, cancellations - {id}, left - {id};
      }
      assert forall id :: id in stale <==> Stale(r, id, now);
    }

    method Insert(q: Request, id: AttemptId) returns (answer: Outcome<AttemptId>)
      modifies this
      ensures Contents() == Inserted(old(Contents()), q, id) && answer == InsertAnswer(old(Contents()), q, id)
    {
      if !q.registered {
        return No(ProviderMismatch);
      }
      if NeedsState(q.auth, q.state) {
        return No(StateRequired);
      }
      Sweep(q.now);
      if |attempts| >= MAX_ACTIVE_ATTEMPTS {
        return No(Busy);
      }
      cancellations := map other | other in cancellations && other in attempts :: cancellations[other];
      if |cancellations| > MAX_CANCELLATION_TOMBSTONES {
        cancellations := map[];
      }
      attempts := attempts[id := Attempt(q.route, q.auth, q.now + q.ttl, flags, q.state)];
      cancellations := cancellations[id := flags];
      flags := flags + 1;
      return Yes(id);
    }

    method Take(id: AttemptId, route: Route, state: Option<string>, now: nat) returns (answer: Outcome<Attempt>)
      modifies this
      ensures Contents() == Taken(old(Contents()), id, route, state, now)
      ensures answer == TakeAnswer(old(Contents()), id, route, state, now)
    {
      if id !in attempts {
        return No(NotFound);
      }
      var attempt := attempts[id];
      attempts := attempts - {id};
      if attempt.flag in raised {
        answer := No(Cancelled);
      } else if attempt.expires <= now {
        answer := No(Expired);
      } else if attempt.route != route {
        answer := No(ProviderMismatch);
      } else if NeedsState(attempt.auth, attempt.state) {
        answer := No(StateRequired);
      } else if attempt.state.Some? && state != attempt.state {
        answer := No(StateMismatch);
      } else if attempt.state.None? && state.Some? {
        answer := No(StateMismatch);
      } else {
        return Yes(attempt);
      }
      Finish(id);
    }

    method Cancel(id: AttemptId) returns (answer: Outcome<()>)
      modifies this
      ensures Contents() == CancelledBy(old(Contents()), id)
      ensures answer == if FlagOf(old(Contents()), id).Some? then Yes(()) else No(NotFound)
      ensures FlagOf(Contents(), id).None?
      ensures forall route, state, now :: TakeAnswer(Contents(), id, route, state, now) == No(NotFound)
      ensures forall other :: other != id ==>
                FlagOf(Contents(), other) == FlagOf(old(Contents()), other)
                && (other in attempts <==> other in old(attempts))
                && (other in attempts ==> attempts[other] == old(attempts)[other])
    {
      var flag := if id in cancellations then Some(cancellations[id])
                  else if id in attempts then Some(attempts[id].flag) else None;
      attempts, cancellations := attempts - {id}, cancellations - {id};
      if flag.None? {
        return No(NotFound);
      }
      raised := raised + {flag.value};
      return Yes(());
    }

    method Finish(id: AttemptId)
      modifies this
      ensures Contents() == Finished(old(Contents()), id)
    {
      cancellations := cancellations - {id};
    }
  }

  // ----- runs

  datatype Step =
    | Insert(q: Request, id: AttemptId)
    | Take(id: AttemptId, route: Route, state: Option<string>, now: nat)
    | Cancel(id: AttemptId)
    | Finish(id: AttemptId)

  /** `used` are all ids ever drawn, `taken` those whose completion has been handed out. */
  datatype State = State(r: Registry, used: set<AttemptId>, taken: set<AttemptId>)

  const START: State := State(Registry(map[], map[], {}, 0), {}, {})

  /** A new id is one never drawn before, and a completion is finished only after its attempt was taken. */
  predicate Enabled(s: State, step: Step) {
    match step
    case Insert(_, id) => id !in s.used
    case Finish(id) => id in s.taken
    case _ => true
  }

  function Next(s: State, step: Step): State {
    match step
    case Insert(q, id) => State(Inserted(s.r, q, id), s.used + {id}, s.taken)
    case Take(id, route, state, now) =>
      State(Taken(s.r, id, route, state, now), s.used,
            if TakeAnswer(s.r, id, route, state, now).Yes? then s.taken + {id} else s.taken)
    case Cancel(id) => s.(r := CancelledBy(s.r, id))
    case Finish(id) => s.(r := Finished(s.r, id))
  }

  /** Each stored attempt shares a flag of its own with the cancellation table, and that flag is down. */
  ghost predicate FlagsInv(r: Registry) {
    && (forall id :: id in r.attempts ==> id in r.cancellations && r.cancellations[id] == r.attempts[id].flag)
    && (forall id :: id in r.cancellations ==> r.cancellations[id] < r.flags && r.cancellations[id] !in r.raised)
    && (forall a, b :: a in r.cancellations && b in r.cancellations && a != b ==>
          r.cancellations[a] != r.cancellations[b])
    && (forall flag :: flag in r.raised ==> flag < r.flags)
  }

  ghost predicate BoundsInv(r: Registry) {
    && |r.attempts| <= MAX_ACTIVE_ATTEMPTS && |r.cancellations| <= MAX_ACTIVE_ATTEMPTS
    && forall id :: id in r.attempts ==> !NeedsState(r.attempts[id].auth, r.attempts[id].state)
  }

  ghost predicate IdsInv(s: State) {
    && (forall id :: id in s.r.attempts ==> id in s.used && id !in s.taken)
    && (forall id :: id in s.r.cancellations ==> id in s.used)
    && s.taken <= s.used
  }

  ghost predicate Inv(s: State) {
    FlagsInv(s.r) && BoundsInv(s.r) && IdsInv(s)
  }

  lemma SmallerMap<K, V, W>(a: map<K, V>, b: map<K, W>)
    requires a.Keys <= b.Keys
    ensures |a| <= |b|
  {
    SubsetSize(a.Keys, b.Keys);
    assert |a.Keys| == |a| && |b.Keys| == |b|;
  }

  /** Attempts and flags may go, one with the other, and the flags that go may be raised. */
  ghost predicate Shrinks(r: Registry, v: Registry) {
    && v.flags == r.flags && (forall flag :: flag in v.raised ==> flag < v.flags)
    && (forall id :: id in v.attempts ==> id in r.attempts && v.attempts[id] == r.attempts[id] && id in v.cancellations)
    && (forall id :: id in v.cancellations ==>
          id in r.cancellations && v.cancellations[id] == r.cancellations[id] && v.cancellations[id] !in v.raised)
  }

  lemma ShrinkKeepsFlags(r: Registry, v: Registry)
    requires FlagsInv(r) && Shrinks(r, v)
    ensures FlagsInv(v)
  {
  }

  lemma ShrinkKeepsBounds(r: Registry, v: Registry)
    requires BoundsInv(r) && Shrinks(r, v)
    ensures BoundsInv(v)
  {
    SmallerMap(v.attempts, r.attempts);
    SmallerMap(v.cancellations, r.cancellations);
    hide NeedsState;
  }

  lemma ShrinkKeepsAll(s: State, v: State)
    requires Inv(s) && Shrinks(s.r, v.r) && v.used == s.used
    requires v.taken <= s.used && forall id :: id in v.r.attempts ==> id !in v.taken
    ensures Inv(v)
  {
    ShrinkKeepsFlags(s.r, v.r);
    ShrinkKeepsBounds(s.r, v.r);
    hide FlagsInv, BoundsInv;
  }

  lemma SweepShrinks(r: Registry, now: nat)
    requires FlagsInv(r)
    ensures Shrinks(r, Swept(r, now))
  {
  }

  /** The flags in the table are exactly those of the stored attempts. */
  ghost predicate Matched(r: Registry) {
    forall id :: id in r.cancellations <==> id in r.attempts
  }

  /** Trimming leaves exactly the flags of the stored attempts; there are never enough left over to clear them all. */
  lemma TrimKeeps(r: Registry)
    requires FlagsInv(r) && BoundsInv(r)
    ensures Shrinks(r, Trimmed(r)) && Matched(Trimmed(r)) && Trimmed(r).attempts == r.attempts
  {
    var kept := map id | id in r.cancellations && id in r.attempts :: r.cancellations[id];
    SmallerMap(kept, r.cancellations);
    hide NeedsState;
  }

  lemma AddKeepsFlags(r: Registry, id: AttemptId, a: Attempt)
    requires FlagsInv(r) && Matched(r) && id !in r.attempts && a.flag == r.flags
    ensures FlagsInv(Registry(r.attempts[id := a], r.cancellations[id := r.flags], r.raised, r.flags + 1))
  {
  }

  lemma AddKeepsSizes(r: Registry, v: Registry, id: AttemptId, a: Attempt)
    requires |r.attempts| < MAX_ACTIVE_ATTEMPTS && Matched(r)
    requires v.attempts == r.attempts[id := a] && v.cancellations == r.cancellations[id := a.flag]
    ensures |v.attempts| <= MAX_ACTIVE_ATTEMPTS && |v.cancellations| <= MAX_ACTIVE_ATTEMPTS && Matched(v)
  {
    assert v.attempts.Keys == r.attempts.Keys + {id};
    assert |v.attempts.Keys| == |v.attempts| && |r.attempts.Keys| == |r.attempts|;
    MatchedIsSmaller(v);
  }

  lemma MatchedIsSmaller(r: Registry)
    requires Matched(r)
    ensures |r.cancellations| <= |r.attempts|
  {
    assert r.cancellations.Keys <= r.attempts.Keys;
    SmallerMap(r.cancellations, r.attempts);
  }

  lemma AddKeepsBounds(r: Registry, v: Registry, id: AttemptId, a: Attempt)
    requires BoundsInv(r) && Matched(r) && |r.attempts| < MAX_ACTIVE_ATTEMPTS && !NeedsState(a.auth, a.state)
    requires v.attempts == r.attempts[id := a] && v.cancellations == r.cancellations[id := a.flag]
    ensures BoundsInv(v) && Matched(v)
  {
    AddKeepsSizes(r, v, id, a);
    hide NeedsState, Matched;
  }

  lemma AddKeeps(r: Registry, id: AttemptId, q: Request)
    requires FlagsInv(r) && BoundsInv(r) && id !in r.attempts && |r.attempts| < MAX_ACTIVE_ATTEMPTS && !Refused(q)
    ensures var v := Added(Trimmed(r), id, q.route, q.auth, q.now + q.ttl, q.state);
            FlagsInv(v) && BoundsInv(v) && Matched(v)
  {
    var t := Trimmed(r);
    TrimKeeps(r);
    ShrinkKeepsFlags(r, t);
    ShrinkKeepsBounds(r, t);
    hide Trimmed, NeedsState, FlagsInv, BoundsInv, Matched, Shrinks;
    var a := Attempt(q.route, q.auth, q.now + q.ttl, t.flags, q.state);
    var v := Added(t, id, q.route, q.auth, q.now + q.ttl, q.state);
    AddKeepsFlags(t, id, a);
    AddKeepsBounds(t, v, id, a);
  }

  lemma InsertCases(s: State, q: Request, id: AttemptId)
    ensures InsertAnswer(s.r, q, id).Yes? <==> !Refused(q) && |Swept(s.r, q.now).attempts| < MAX_ACTIVE_ATTEMPTS
    ensures Inserted(s.r, q, id)
         == if Refused(q) then s.r
            else if InsertAnswer(s.r, q, id).Yes?
            then Added(Trimmed(Swept(s.r, q.now)), id, q.route, q.auth, q.now + q.ttl, q.state)
            else Swept(s.r, q.now)
  {
    hide Swept, Trimmed, Added, NeedsState;
  }

  lemma SweepKeeps(s: State, now: nat)
    requires Inv(s)
    ensures Inv(State(Swept(s.r, now), s.used, s.taken))
  {
    SweepShrinks(s.r, now);
    hide FlagsInv, BoundsInv, Swept;
    ShrinkKeepsAll(s, State(Swept(s.r, now), s.used, s.taken));
  }

  /** An insertion that goes through leaves exactly the flags of the stored attempts in the table. */
  lemma InsertKeeps(s: State, q: Request, id: AttemptId)
    requires Inv(s) && id !in s.used
    ensures Inv(Next(s, Insert(q, id)))
    ensures InsertAnswer(s.r, q, id).Yes? ==> Matched(Inserted(s.r, q, id))
  {
    InsertCases(s, q, id);
    SweepKeeps(s, q.now);
    var swept := State(Swept(s.r, q.now), s.used, s.taken);
    hide FlagsInv, BoundsInv, Swept, Refused, Trimmed, Inserted, InsertAnswer, Matched;
    if InsertAnswer(s.r, q, id).Yes? {
      assert id !in swept.r.attempts;
      AddKeeps(swept.r, id, q);
      assert Inserted(s.r, q, id).attempts.Keys == Trimmed(swept.r).attempts.Keys + {id};
      TrimSame(swept.r);
      InsertIds(s, swept.r, Inserted(s.r, q, id), id);
    } else {
      GrowIds(s, id);
      GrowIds(swept, id);
    }
  }

  lemma TrimSame(r: Registry)
    ensures Trimmed(r).attempts == r.attempts
  {
  }

  lemma GrowIds(s: State, id: AttemptId)
    requires IdsInv(s)
    ensures IdsInv(State(s.r, s.used + {id}, s.taken))
  {
  }

  lemma InsertIds(s: State, swept: Registry, v: Registry, id: AttemptId)
    requires IdsInv(State(swept, s.used, s.taken)) && id !in s.used
    requires Matched(v) && v.attempts.Keys == swept.attempts.Keys + {id}
    ensures IdsInv(State(v, s.used + {id}, s.taken))
  {
    forall other | other in v.attempts
      ensures other in s.used + {id} && other !in s.taken
    {
      assert other in v.attempts.Keys;
    }
  }

  lemma TakeShrinks(r: Registry, id: AttemptId, route: Route, state: Option<string>, now: nat)
    requires FlagsInv(r)
    ensures Shrinks(r, Taken(r, id, route, state, now))
  {
    hide Verdict;
  }

  lemma TakeKeeps(s: State, id: AttemptId, route: Route, state: Option<string>, now: nat)
    requires Inv(s)
    ensures Inv(Next(s, Take(id, route, state, now)))
  {
    TakeShrinks(s.r, id, route, state, now);
    hide FlagsInv, BoundsInv, Shrinks, Verdict;
    ShrinkKeepsAll(s, Next(s, Take(id, route, state, now)));
  }

  lemma CancelShrinks(r: Registry, id: AttemptId)
    requires FlagsInv(r)
    ensures Shrinks(r, CancelledBy(r, id))
  {
    var v := CancelledBy(r, id);
    if FlagOf(r, id).Some? {
      assert id in r.cancellations;
      forall other | other in v.cancellations
        ensures v.cancellations[other] != r.cancellations[id]
      {
      }
    }
  }

  lemma CancelKeeps(s: State, id: AttemptId)
    requires Inv(s)
    ensures Inv(Next(s, Cancel(id)))
  {
    CancelShrinks(s.r, id);
    hide FlagsInv, BoundsInv, Shrinks;
    ShrinkKeepsAll(s, Next(s, Cancel(id)));
  }

  lemma FinishShrinks(r: Registry, id: AttemptId)
    requires FlagsInv(r) && id !in r.attempts
    ensures Shrinks(r, Finished(r, id))
  {
  }

  lemma FinishKeeps(s: State, id: AttemptId)
    requires Inv(s) && id in s.taken
    ensures Inv(Next(s, Finish(id)))
  {
    FinishShrinks(s.r, id);
    hide FlagsInv, BoundsInv, Shrinks;
    ShrinkKeepsAll(s, Next(s, Finish(id)));
  }

  lemma InvKept(s: State, step: Step)
    requires Inv(s) && Enabled(s, step)
    ensures Inv(Next(s, step))
  {
    hide Inv, Next;
    match step {
      case Insert(q, id) => InsertKeeps(s, q, id);
      case Take(id, route, state, now) => TakeKeeps(s, id, route, state, now);
      case Cancel(id) => CancelKeeps(s, id);
      case Finish(id) => FinishKeeps(s, id);
    }
  }

  ghost predicate MovesAt(states: seq<State>, steps: seq<Step>, i: nat)
    requires i < |steps| && |states| == |steps| + 1
  {
    Enabled(states[i], steps[i]) && states[i + 1] == Next(states[i], steps[i])
  }

  ghost predicate IsRun(states: seq<State>, steps: seq<Step>) {
    && |states| == |steps| + 1 && states[0] == START
    && forall i :: 0 <= i < |steps| ==> MovesAt(states, steps, i)
  }

  lemma {:induction false} RunInvariant(states: seq<State>, steps: seq<Step>, i: nat)
    requires IsRun(states, steps) && i < |states|
    ensures Inv(states[i])
  {
    if i == 0 {
      assert Inv(START);
    } else {
      hide Inv, Next;
      RunInvariant(states, steps, i - 1);
      assert MovesAt(states, steps, i - 1);
      InvKept(states[i - 1], steps[i - 1]);
    }
  }

  /** In every reachable state a stored attempt is neither cancelled nor lacking its state, so `take` never says so. */
  lemma TakeNeverFindsCancelled(
    states: seq<State>, steps: seq<Step>, i: nat, id: AttemptId, route: Route, state: Option<string>, now: nat)
    requires IsRun(states, steps) && i < |states|
    ensures |states[i].r.attempts| <= MAX_ACTIVE_ATTEMPTS && |states[i].r.cancellations| <= MAX_ACTIVE_ATTEMPTS
    ensures id in states[i].r.attempts ==>
              id in states[i].r.cancellations && states[i].r.cancellations[id] == states[i].r.attempts[id].flag
    ensures TakeAnswer(states[i].r, id, route, state, now) !in {No(Cancelled), No(StateRequired)}
  {
    RunInvariant(states, steps, i);
  }

  lemma {:induction false} GoneForGood(states: seq<State>, steps: seq<Step>, i: nat, j: nat, id: AttemptId)
    requires IsRun(states, steps) && i <= j < |states| && id in states[i].used && id !in states[i].r.attempts
    ensures id in states[j].used && id !in states[j].r.attempts
  {
    if i < j {
      GoneForGood(states, steps, i, j - 1, id);
      assert MovesAt(states, steps, j - 1);
      RunInvariant(states, steps, j - 1);
      hide Inv, IsRun, NeedsState, Trimmed;
      AttemptsOnlyAdded(states[j - 1], steps[j - 1], id);
    }
  }

  lemma AttemptsOnlyAdded(s: State, step: Step, id: AttemptId)
    requires id in s.used && Enabled(s, step)
    ensures id in Next(s, step).used
    ensures id in Next(s, step).r.attempts ==> id in s.r.attempts && Next(s, step).r.attempts[id] == s.r.attempts[id]
    ensures (step.Take? || step.Cancel?) && step.id == id ==> id !in Next(s, step).r.attempts
  {
    hide NeedsState, Verdict;
  }

  /** Any take or cancel uses an id up, whatever it answered: no later take of it gets an attempt. */
  lemma TakeBurnsTheId(
    states: seq<State>, steps: seq<Step>, i: nat, j: nat, id: AttemptId, route: Route, state: Option<string>, now: nat)
    requires IsRun(states, steps) && i < j < |states| && id in states[i].used
    requires (steps[i].Take? || steps[i].Cancel?) && steps[i].id == id
    ensures TakeAnswer(states[j].r, id, route, state, now) == No(NotFound)
  {
    assert MovesAt(states, steps, i);
    AttemptsOnlyAdded(states[i], steps[i], id);
    hide Next;
    GoneForGood(states, steps, i + 1, j, id);
  }

  predicate Records(a: Attempt, q: Request) {
    a.route == q.route && a.auth == q.auth && a.expires == q.now + q.ttl && a.state == q.state
  }

  /** The insertion at `i` of the attempt stored under `id` at `j`, with no cancel or take of it since. */
  ghost predicate Origin(states: seq<State>, steps: seq<Step>, i: nat, j: nat, id: AttemptId)
    requires IsRun(states, steps) && i < j < |states| && id in states[j].r.attempts
  {
    && steps[i].Insert? && steps[i].id == id && InsertAnswer(states[i].r, steps[i].q, id).Yes?
    && Records(states[j].r.attempts[id], steps[i].q)
    && forall k :: i < k < j ==> !((steps[k].Take? || steps[k].Cancel?) && steps[k].id == id)
  }

  lemma {:induction false} StoredCameFrom(states: seq<State>, steps: seq<Step>, j: nat, id: AttemptId) returns (i: nat)
    requires IsRun(states, steps) && j < |states| && id in states[j].r.attempts
    ensures i < j && Origin(states, steps, i, j, id)
  {
    assert j > 0;
    assert MovesAt(states, steps, j - 1);
    RunInvariant(states, steps, j - 1);
    var s, step := states[j - 1], steps[j - 1];
    if id in s.used {
      AttemptsOnlyAdded(s, step, id);
      hide Next, InsertAnswer;
      i := StoredCameFrom(states, steps, j - 1, id);
    } else {
      NewIsInserted(s, step, id);
      hide Next;
      i := j - 1;
    }
  }

  lemma NewIsInserted(s: State, step: Step, id: AttemptId)
    requires Inv(s) && id !in s.used && id in Next(s, step).r.attempts
    ensures step.Insert? && step.id == id && InsertAnswer(s.r, step.q, id).Yes?
    ensures Records(Next(s, step).r.attempts[id], step.q)
  {
    assert id !in s.r.attempts;
    if !step.Insert? {
      OthersAddNothing(s, step, id);
    }
    hide FlagsInv, BoundsInv, Verdict, Taken, NeedsState, TakeAnswer;
    if step.Insert? {
      InsertCases(s, step.q, step.id);
      TrimSame(Swept(s.r, step.q.now));
      SweepAddsNothing(s.r, step.q.now, id);
      hide Inserted, InsertAnswer, Swept, Trimmed, Refused;
    }
  }

  lemma OthersAddNothing(s: State, step: Step, id: AttemptId)
    requires id !in s.r.attempts && !step.Insert?
    ensures id !in Next(s, step).r.attempts
  {
    hide Verdict;
  }

  lemma SweepAddsNothing(r: Registry, now: nat, id: AttemptId)
    requires id !in r.attempts
    ensures id !in Swept(r, now).attempts
  {
  }

  /**
   A completed attempt was inserted for the same provider, product and harness with exactly the presented
   state, has not expired, and was neither cancelled nor taken in between.
   */
  lemma CompletionMatchesInsertion(states: seq<State>, steps: seq<Step>, j: nat) returns (i: nat)
    requires IsRun(states, steps) && j < |steps| && steps[j].Take?
    requires TakeAnswer(states[j].r, steps[j].id, steps[j].route, steps[j].state, steps[j].now).Yes?
    ensures i < j && steps[i].Insert? && steps[i].id == steps[j].id && !Refused(steps[i].q)
    ensures steps[i].q.route == steps[j].route && steps[i].q.state == steps[j].state
    ensures steps[j].now < steps[i].q.now + steps[i].q.ttl
    ensures forall k :: i < k < j ==> !((steps[k].Take? || steps[k].Cancel?) && steps[k].id == steps[j].id)
  {
    i := StoredCameFrom(states, steps, j, steps[j].id);
    hide NeedsState;
  }

  // ----- how long an attempt stays, and what a take or an insertion answers

  /** What ends an attempt: a take or cancel of it, or an insertion made when it has expired. */
  predicate EndsAttempt(step: Step, id: AttemptId, expires: nat) {
    match step
    case Take(other, _, _, _) => other == id
    case Cancel(other) => other == id
    case Insert(q, _) => !Refused(q) && expires <= q.now
    case Finish(_) => false
  }

  lemma StaysStored(s: State, step: Step, id: AttemptId)
    requires Inv(s) && Enabled(s, step) && id in s.r.attempts
    ensures var n := Next(s, step);
            && (id in n.r.attempts <==> !EndsAttempt(step, id, s.r.attempts[id].expires))
            && (id in n.r.attempts ==> n.r.attempts[id] == s.r.attempts[id])
  {
    AttemptsOnlyAdded(s, step, id);
    if step.Insert? {
      StaysOverInsert(s, step.q, step.id, id);
    }
    hide FlagsInv, BoundsInv, Inserted, NeedsState, Verdict;
  }

  lemma StaysOverInsert(s: State, q: Request, drawn: AttemptId, id: AttemptId)
    requires Inv(s) && drawn !in s.used && id in s.r.attempts
    ensures id in Inserted(s.r, q, drawn).attempts <==> Refused(q) || q.now < s.r.attempts[id].expires
  {
    InsertCases(s, q, drawn);
    TrimSame(Swept(s.r, q.now));
    assert s.r.attempts[id].flag !in s.r.raised && id != drawn;
    assert id in Swept(s.r, q.now).attempts <==> q.now < s.r.attempts[id].expires;
    hide FlagsInv, BoundsInv, Swept, Trimmed, InsertAnswer, Inserted, Refused;
  }

  /** Nothing strictly between two moments ends the attempt. */
  ghost predicate Undisturbed(steps: seq<Step>, i: nat, j: nat, id: AttemptId, expires: nat) {
    forall k :: i < k < j && k < |steps| ==> !EndsAttempt(steps[k], id, expires)
  }

  lemma UndisturbedStep(steps: seq<Step>, i: nat, j: nat, id: AttemptId, expires: nat)
    requires i + 1 < j <= |steps|
    ensures Undisturbed(steps, i, j, id, expires)
       <==> Undisturbed(steps, i, j - 1, id, expires) && !EndsAttempt(steps[j - 1], id, expires)
  {
    hide EndsAttempt;
  }

  /** An insertion went through at that step. */
  predicate InsertedAt(states: seq<State>, steps: seq<Step>, i: nat, id: AttemptId, q: Request) {
    i < |steps| && i < |states| && steps[i] == Insert(q, id) && InsertAnswer(states[i].r, q, id).Yes?
  }

  lemma FreshIsStored(s: State, q: Request, id: AttemptId)
    requires Inv(s) && id !in s.used && InsertAnswer(s.r, q, id).Yes?
    ensures var n := Next(s, Insert(q, id));
            id in n.used && id in n.r.attempts && Records(n.r.attempts[id], q)
  {
    InsertCases(s, q, id);
    hide FlagsInv, BoundsInv, Swept, Trimmed, InsertAnswer, Inserted, Refused;
  }

  /** An inserted attempt is stored, as it was inserted, exactly until something ends it. */
  lemma {:induction false} StoredExactly(
    states: seq<State>, steps: seq<Step>, i: nat, j: nat, id: AttemptId, q: Request)
    requires IsRun(states, steps) && i < j < |states| && InsertedAt(states, steps, i, id, q)
    ensures id in states[j].used
    ensures id in states[j].r.attempts <==> Undisturbed(steps, i, j, id, q.now + q.ttl)
    ensures id in states[j].r.attempts ==> Records(states[j].r.attempts[id], q)
  {
    hide *;
    RunSizes(states, steps);
    if j == i + 1 {
      StoredAtFirst(states, steps, i, id, q);
    } else {
      RunMoves(states, steps, j - 1);
      StoredExactly(states, steps, i, j - 1, id, q);
      UndisturbedStep(steps, i, j, id, q.now + q.ttl);
      StoredStep(states[j - 1], steps[j - 1], id, q);
    }
  }

  lemma StoredAtFirst(states: seq<State>, steps: seq<Step>, i: nat, id: AttemptId, q: Request)
    requires IsRun(states, steps) && i + 1 < |states| && InsertedAt(states, steps, i, id, q)
    ensures id in states[i + 1].used && id in states[i + 1].r.attempts && Records(states[i + 1].r.attempts[id], q)
    ensures Undisturbed(steps, i, i + 1, id, q.now + q.ttl)
  {
    RunMoves(states, steps, i);
    hide IsRun, Next, Inv, InsertAnswer;
    FreshIsStored(states[i], q, id);
  }

  lemma StoredStep(s: State, step: Step, id: AttemptId, q: Request)
    requires Inv(s) && Enabled(s, step) && id in s.used && (id in s.r.attempts ==> Records(s.r.attempts[id], q))
    ensures var n := Next(s, step);
            && id in n.used && (id in n.r.attempts ==> Records(n.r.attempts[id], q))
            && (id in n.r.attempts <==> id in s.r.attempts && !EndsAttempt(step, id, q.now + q.ttl))
  {
    hide Inv, Next, Enabled, EndsAttempt;
    AttemptsOnlyAdded(s, step, id);
    if id in s.r.attempts {
      StaysStored(s, step, id);
    }
  }

  /** What a take answers, from what has happened since the insertion alone. */
  lemma TakeAnswersByHistory(
    states: seq<State>, steps: seq<Step>, i: nat, j: nat, id: AttemptId, q: Request,
    route: Route, state: Option<string>, now: nat)
    requires IsRun(states, steps) && i < j < |states| && InsertedAt(states, steps, i, id, q)
    ensures var answer := TakeAnswer(states[j].r, id, route, state, now);
            if !Undisturbed(steps, i, j, id, q.now + q.ttl) then answer == No(NotFound)
            else if q.now + q.ttl <= now then answer == No(Expired)
            else if q.route != route then answer == No(ProviderMismatch)
            else if q.state != state then answer == No(StateMismatch)
            else answer.Yes? && Records(answer.value, q)
  {
    StoredExactly(states, steps, i, j, id, q);
    TakeNeverFindsCancelled(states, steps, j, id, route, state, now);
    hide IsRun, InsertedAt, Undisturbed, NeedsState;
  }

  /** An insertion of that id went through, nothing has ended it, and at that time it has not expired. */
  ghost predicate LiveAt(states: seq<State>, steps: seq<Step>, j: nat, id: AttemptId, now: nat) {
    exists i, q :: LiveSince(states, steps, i, j, id, q, now)
  }

  ghost predicate LiveSince(
    states: seq<State>, steps: seq<Step>, i: nat, j: nat, id: AttemptId, q: Request, now: nat)
  {
    i < j && InsertedAt(states, steps, i, id, q) && Undisturbed(steps, i, j, id, q.now + q.ttl) && now < q.now + q.ttl
  }

  lemma SweptExactly(states: seq<State>, steps: seq<Step>, j: nat, id: AttemptId, now: nat)
    requires IsRun(states, steps) && j < |states|
    ensures id in Swept(states[j].r, now).attempts <==> LiveAt(states, steps, j, id, now)
  {
    SweepKeepsUnexpired(states, steps, j, id, now);
    hide Swept;
    if id in states[j].r.attempts {
      var i := StoredCameFrom(states, steps, j, id);
      var q := steps[i].q;
      assert InsertedAt(states, steps, i, id, q);
      StoredExactly(states, steps, i, j, id, q);
      assert now < q.now + q.ttl ==> LiveSince(states, steps, i, j, id, q, now);
    }
    hide IsRun, InsertedAt, Undisturbed;
    forall i, q | LiveSince(states, steps, i, j, id, q, now)
      ensures id in states[j].r.attempts && now < states[j].r.attempts[id].expires
    {
      StoredExactly(states, steps, i, j, id, q);
    }
  }

  lemma SweepKeepsUnexpired(states: seq<State>, steps: seq<Step>, j: nat, id: AttemptId, now: nat)
    requires IsRun(states, steps) && j < |states|
    ensures id in Swept(states[j].r, now).attempts
       <==> id in states[j].r.attempts && now < states[j].r.attempts[id].expires
    ensures |states[j].r.attempts| <= MAX_ACTIVE_ATTEMPTS
  {
    RunInvariant(states, steps, j);
    hide IsRun, BoundsInv;
    assert Inv(states[j]) && FlagsInv(states[j].r);
  }

  /** An insertion is refused as busy if and only if eight earlier ones are live. */
  lemma BusyExactly(states: seq<State>, steps: seq<Step>, j: nat, q: Request, id: AttemptId)
    requires IsRun(states, steps) && j < |states|
    ensures InsertAnswer(states[j].r, q, id) == No(Busy)
       <==> !Refused(q) && exists ids: set<AttemptId> ::
              |ids| == MAX_ACTIVE_ATTEMPTS && forall x :: x in ids ==> LiveAt(states, steps, j, x, q.now)
  {
    var live := Swept(states[j].r, q.now).attempts;
    forall x
      ensures x in live <==> LiveAt(states, steps, j, x, q.now)
    {
      SweptExactly(states, steps, j, x, q.now);
    }
    SweptIsBounded(states, steps, j, q.now);
    assert |live.Keys| == |live|;
    hide IsRun, LiveAt, Swept, NeedsState;
    if |live| >= MAX_ACTIVE_ATTEMPTS {
      assert |live.Keys| == MAX_ACTIVE_ATTEMPTS && forall x :: x in live.Keys ==> LiveAt(states, steps, j, x, q.now);
    }
    forall ids: set<AttemptId> |
      |ids| == MAX_ACTIVE_ATTEMPTS && forall x :: x in ids ==> LiveAt(states, steps, j, x, q.now)
      ensures |live| >= MAX_ACTIVE_ATTEMPTS
    {
      SubsetSize(ids, live.Keys);
    }
  }

  lemma SweptIsBounded(states: seq<State>, steps: seq<Step>, j: nat, now: nat)
    requires IsRun(states, steps) && j < |states|
    ensures |Swept(states[j].r, now).attempts| <= MAX_ACTIVE_ATTEMPTS
  {
    RunInvariant(states, steps, j);
    SmallerMap(Swept(states[j].r, now).attempts, states[j].r.attempts);
    hide IsRun, FlagsInv;
  }

  // ----- cancelling a completion under way

  /** What ends the time in which a completion can be cancelled. */
  predicate Forgets(s: State, step: Step, id: AttemptId) {
    match step
    case Insert(q, other) => InsertAnswer(s.r, q, other).Yes?
    case Finish(other) => other == id
    case Cancel(other) => other == id
    case Take(_, _, _, _) => false
  }

  ghost predicate ForgetsAt(states: seq<State>, steps: seq<Step>, k: nat, id: AttemptId)
    requires k < |steps| && |states| == |steps| + 1
  {
    Forgets(states[k], steps[k], id)
  }

  /** Nothing of that kind strictly between two moments. */
  ghost predicate Quiet(states: seq<State>, steps: seq<Step>, t: nat, j: nat, id: AttemptId)
    requires j < |states| == |steps| + 1
  {
    forall k :: t < k < j ==> !ForgetsAt(states, steps, k, id)
  }

  lemma QuietStep(states: seq<State>, steps: seq<Step>, t: nat, j: nat, id: AttemptId)
    requires j < |states| == |steps| + 1 && t + 1 < j
    ensures Quiet(states, steps, t, j, id)
       <==> Quiet(states, steps, t, j - 1, id) && !Forgets(states[j - 1], steps[j - 1], id)
  {
    hide Forgets;
    assert ForgetsAt(states, steps, j - 1, id) <==> Forgets(states[j - 1], steps[j - 1], id);
    hide ForgetsAt;
  }

  lemma FlagStep(s: State, step: Step, id: AttemptId)
    requires Inv(s) && Enabled(s, step) && id in s.taken && id in s.used && id !in s.r.attempts
    ensures FlagOf(Next(s, step).r, id).Some? <==> FlagOf(s.r, id).Some? && !Forgets(s, step, id)
    ensures id in Next(s, step).taken && id in Next(s, step).used && id !in Next(s, step).r.attempts
  {
    AttemptsOnlyAdded(s, step, id);
    TakenStays(s, step, id);
    if step.Insert? {
      FlagAfterInsert(s, step.q, step.id, id);
    }
    hide FlagsInv, BoundsInv, Verdict, NeedsState, Inserted, InsertAnswer;
  }

  lemma FlagAfterInsert(s: State, q: Request, drawn: AttemptId, id: AttemptId)
    requires Inv(s) && drawn !in s.used && id in s.used && id !in s.r.attempts
    ensures id !in Inserted(s.r, q, drawn).attempts
    ensures id in Inserted(s.r, q, drawn).cancellations
       <==> id in s.r.cancellations && !InsertAnswer(s.r, q, drawn).Yes?
  {
    InsertCases(s, q, drawn);
    InsertKeeps(s, q, drawn);
    TrimSame(Swept(s.r, q.now));
    assert id !in Swept(s.r, q.now).attempts && (id in Swept(s.r, q.now).cancellations <==> id in s.r.cancellations);
    hide FlagsInv, BoundsInv, Swept, Trimmed, InsertAnswer, Inserted, Refused;
  }

  /**
   After a take that handed out its attempt at step t, a cancel of it finds a flag to raise if and only if no
   insertion has gone through since, and the completion has been neither finished nor cancelled.
   */
  lemma {:induction false} CancelReachesExactly(states: seq<State>, steps: seq<Step>, t: nat, j: nat)
    requires IsRun(states, steps) && t < j < |states| && steps[t].Take?
    requires TakeAnswer(states[t].r, steps[t].id, steps[t].route, steps[t].state, steps[t].now).Yes?
    ensures steps[t].id in states[j].taken && steps[t].id in states[j].used && steps[t].id !in states[j].r.attempts
    ensures FlagOf(states[j].r, steps[t].id).Some? <==> Quiet(states, steps, t, j, steps[t].id)
  {
    hide *;
    RunSizes(states, steps);
    var id := steps[t].id;
    RunMoves(states, steps, j - 1);
    if j == t + 1 {
      TakenHasFlag(states[t], steps[t]);
      QuietAtFirst(states, steps, t, id);
    } else {
      CancelReachesExactly(states, steps, t, j - 1);
      FlagStep(states[j - 1], steps[j - 1], id);
      QuietStep(states, steps, t, j, id);
    }
  }

  lemma RunSizes(states: seq<State>, steps: seq<Step>)
    requires IsRun(states, steps)
    ensures |states| == |steps| + 1
  {
  }

  lemma RunMoves(states: seq<State>, steps: seq<Step>, i: nat)
    requires IsRun(states, steps) && i < |steps|
    ensures i + 1 < |states| && Inv(states[i])
    ensures Enabled(states[i], steps[i]) && states[i + 1] == Next(states[i], steps[i])
  {
    RunInvariant(states, steps, i);
    assert MovesAt(states, steps, i);
  }

  lemma QuietAtFirst(states: seq<State>, steps: seq<Step>, t: nat, id: AttemptId)
    requires t + 1 < |states| == |steps| + 1
    ensures Quiet(states, steps, t, t + 1, id)
  {
  }

  /** A flag that is nobody else's: of that id, if it is in the table at all. */
  ghost predicate Owned(r: Registry, id: AttemptId, flag: FlagId) {
    && flag < r.flags && (id in r.cancellations ==> r.cancellations[id] == flag)
    && forall other :: other in r.cancellations && other != id ==> r.cancellations[other] != flag
  }

  lemma OwnedOverInsert(s: State, q: Request, drawn: AttemptId, id: AttemptId, flag: FlagId)
    requires Inv(s) && id in s.used && drawn !in s.used && Owned(s.r, id, flag)
    ensures var r := Inserted(s.r, q, drawn); Owned(r, id, flag) && r.raised == s.r.raised
  {
    InsertCases(s, q, drawn);
    TrimKeepsOwn(s.r, q.now);
    hide Inserted, InsertAnswer, Swept, Trimmed, Refused, Inv;
  }

  lemma TrimKeepsOwn(r: Registry, now: nat)
    ensures var w := Swept(r, now); var v := Trimmed(w);
            && v.flags == w.flags == r.flags && v.raised == w.raised == r.raised
            && (forall x :: x in v.cancellations ==> x in r.cancellations && v.cancellations[x] == r.cancellations[x])
            && (forall x :: x in w.cancellations ==> x in r.cancellations && w.cancellations[x] == r.cancellations[x])
  {
  }

  lemma OwnedOverTake(r: Registry, step: Step, id: AttemptId, flag: FlagId)
    requires step.Take? && Owned(r, id, flag)
    ensures var v := Taken(r, step.id, step.route, step.state, step.now); Owned(v, id, flag) && v.raised == r.raised
  {
    hide Verdict;
  }

  lemma OwnedOverCancel(r: Registry, other: AttemptId, id: AttemptId, flag: FlagId)
    requires Owned(r, id, flag) && FlagsInv(r) && id !in r.attempts
    ensures var v := CancelledBy(r, other);
            Owned(v, id, flag) && (flag in v.raised <==> flag in r.raised || (other == id && FlagOf(r, id).Some?))
  {
  }

  /** A completion's flag goes up with a cancel that finds it, and with nothing else. */
  lemma OwnedStep(s: State, step: Step, id: AttemptId, flag: FlagId)
    requires Inv(s) && Enabled(s, step) && id in s.used && id !in s.r.attempts && Owned(s.r, id, flag)
    ensures Owned(Next(s, step).r, id, flag)
    ensures flag in Next(s, step).r.raised
       <==> flag in s.r.raised || (step == Cancel(id) && FlagOf(s.r, id).Some?)
  {
    match step {
      case Insert(q, drawn) => OwnedOverInsert(s, q, drawn, id, flag); hide Owned, Inserted, Inv, FlagOf;
      case Take(_, _, _, _) => OwnedOverTake(s.r, step, id, flag); hide Owned, Taken, Inv, TakeAnswer, FlagOf;
      case Cancel(other) => OwnedOverCancel(s.r, other, id, flag); hide Owned, CancelledBy, Inv, FlagOf;
      case Finish(_) => hide Inv, FlagOf;
    }
  }

  lemma TakenOwns(s: State, step: Step)
    requires Inv(s) && step.Take? && TakeAnswer(s.r, step.id, step.route, step.state, step.now).Yes?
    ensures var flag := TakeAnswer(s.r, step.id, step.route, step.state, step.now).value.flag;
            Owned(Next(s, step).r, step.id, flag) && flag !in Next(s, step).r.raised
  {
    hide BoundsInv;
  }

  /** A cancel of the completion that found its flag, strictly between two moments. */
  ghost predicate CancelledBetween(states: seq<State>, steps: seq<Step>, t: nat, j: nat, id: AttemptId)
    requires j < |states| == |steps| + 1
  {
    exists k :: t < k < j && CancelFound(states, steps, k, id)
  }

  ghost predicate CancelFound(states: seq<State>, steps: seq<Step>, k: nat, id: AttemptId)
    requires k < |steps| && |states| == |steps| + 1
  {
    steps[k] == Cancel(id) && FlagOf(states[k].r, id).Some?
  }

  lemma CancelledStep(states: seq<State>, steps: seq<Step>, t: nat, j: nat, id: AttemptId)
    requires j < |states| == |steps| + 1 && t + 1 < j
    ensures CancelledBetween(states, steps, t, j, id)
       <==> CancelledBetween(states, steps, t, j - 1, id) || CancelFound(states, steps, j - 1, id)
  {
    hide CancelFound;
  }

  /**
   The flag a completion was handed is raised if and only if a cancel of it came while the table still knew it; so the
   provider is told of every cancel that was answered, and of no other.
   */
  lemma {:induction false} FlagRaisedExactly(states: seq<State>, steps: seq<Step>, t: nat, j: nat, flag: FlagId)
    requires IsRun(states, steps) && t < j < |states| && steps[t].Take?
    requires TakeAnswer(states[t].r, steps[t].id, steps[t].route, steps[t].state, steps[t].now).Yes?
    requires TakeAnswer(states[t].r, steps[t].id, steps[t].route, steps[t].state, steps[t].now).value.flag == flag
    ensures Owned(states[j].r, steps[t].id, flag)
    ensures flag in states[j].r.raised <==> CancelledBetween(states, steps, t, j, steps[t].id)
  {
    hide *;
    RunSizes(states, steps);
    var id := steps[t].id;
    RunMoves(states, steps, j - 1);
    if j == t + 1 {
      TakenOwns(states[t], steps[t]);
      NothingBetween(states, steps, t, id);
    } else {
      FlagRaisedExactly(states, steps, t, j - 1, flag);
      CancelReachesExactly(states, steps, t, j - 1);
      OwnedStep(states[j - 1], steps[j - 1], id, flag);
      CancelledStep(states, steps, t, j, id);
      FoundMeans(states, steps, j - 1, id);
    }
  }

  lemma NothingBetween(states: seq<State>, steps: seq<Step>, t: nat, id: AttemptId)
    requires t + 1 < |states| == |steps| + 1
    ensures !CancelledBetween(states, steps, t, t + 1, id)
  {
  }

  lemma FoundMeans(states: seq<State>, steps: seq<Step>, k: nat, id: AttemptId)
    requires k < |steps| && |states| == |steps| + 1
    ensures CancelFound(states, steps, k, id) <==> steps[k] == Cancel(id) && FlagOf(states[k].r, id).Some?
  {
  }

  lemma TakenHasFlag(s: State, step: Step)
    requires Inv(s) && step.Take? && TakeAnswer(s.r, step.id, step.route, step.state, step.now).Yes?
    ensures var n := Next(s, step);
            step.id in n.taken && step.id in n.used && step.id !in n.r.attempts && FlagOf(n.r, step.id).Some?
  {
    hide BoundsInv, Verdict;
  }

  lemma TakenStays(s: State, step: Step, id: AttemptId)
    requires id in s.taken
    ensures id in Next(s, step).taken
  {
    hide Inserted, Taken, TakeAnswer;
  }

  function TooLateSteps(q: Request, a: AttemptId, b: AttemptId): seq<Step> {
    [Insert(q, a), Take(a, q.route, q.state, q.now), Insert(q, b), Finish(a)]
  }

  function TooLateStates(q: Request, a: AttemptId, b: AttemptId): seq<State> {
    var steps := TooLateSteps(q, a, b);
    var s1 := Next(START, steps[0]);
    var s2 := Next(s1, steps[1]);
    var s3 := Next(s2, steps[2]);
    [START, s1, s2, s3, Next(s3, steps[3])]
  }

  lemma InsertedIsTaken(r: Registry, q: Request, id: AttemptId)
    requires !Refused(q) && q.ttl > 0 && r.raised == {}
    requires r.attempts == map[id := Attempt(q.route, q.auth, q.now + q.ttl, 0, q.state)]
    ensures TakeAnswer(r, id, q.route, q.state, q.now).Yes?
  {
    hide NeedsState;
  }

  lemma TooLateAnswers(q: Request, a: AttemptId, b: AttemptId)
    requires !Refused(q) && q.ttl > 0 && a != b
    ensures var states := TooLateStates(q, a, b);
            && TakeAnswer(states[1].r, a, q.route, q.state, q.now).Yes?
            && states[1].used == {a} && states[2].used == {a} && states[2].taken == {a} && states[3].taken == {a}
            && InsertAnswer(states[2].r, q, b).Yes?
  {
    var states := TooLateStates(q, a, b);
    FirstInsertGoesThrough(START, q, a);
    hide Inserted, InsertAnswer, NeedsState;
    InsertedIsTaken(states[1].r, q, a);
    hide TakeAnswer;
    assert states[2].r.attempts == map[];
    FirstInsertGoesThrough(states[2], q, b);
  }

  /** The first attempt is taken, a second one inserted, and from then on a cancel of the first finds nothing. */
  lemma CancelComesTooLate(q: Request, a: AttemptId, b: AttemptId)
    requires !Refused(q) && q.ttl > 0 && a != b
    ensures var states, steps := TooLateStates(q, a, b), TooLateSteps(q, a, b);
            && IsRun(states, steps) && TakeAnswer(states[1].r, a, q.route, q.state, q.now).Yes?
            && FlagOf(states[2].r, a).Some? && FlagOf(states[3].r, a) == None && steps[3] == Finish(a)
  {
    var states, steps := TooLateStates(q, a, b), TooLateSteps(q, a, b);
    TooLateAnswers(q, a, b);
    TooLateIsRun(q, a, b);
    assert |states| == 5 && steps[1] == Take(a, q.route, q.state, q.now) && steps[2] == Insert(q, b);
    assert ForgetsAt(states, steps, 2, a);
    assert !Quiet(states, steps, 1, 3, a);
    QuietAtFirst(states, steps, 1, a);
    hide *;
    CancelReachesExactly(states, steps, 1, 2);
    CancelReachesExactly(states, steps, 1, 3);
    NoFlag(states[3].r, a);
  }

  lemma NoFlag(r: Registry, id: AttemptId)
    ensures !FlagOf(r, id).Some? ==> FlagOf(r, id) == None
  {
  }

  lemma TooLateIsRun(q: Request, a: AttemptId, b: AttemptId)
    requires !Refused(q) && q.ttl > 0 && a != b
    ensures IsRun(TooLateStates(q, a, b), TooLateSteps(q, a, b))
  {
    var states, steps := TooLateStates(q, a, b), TooLateSteps(q, a, b);
    TooLateAnswers(q, a, b);
    hide Next, InsertAnswer, TakeAnswer, Refused;
    FourMoves(states, steps);
  }

  lemma FourMoves(states: seq<State>, steps: seq<Step>)
    requires |states| == 5 && |steps| == 4 && states[0] == START
    requires Enabled(states[0], steps[0]) && states[1] == Next(states[0], steps[0])
    requires Enabled(states[1], steps[1]) && states[2] == Next(states[1], steps[1])
    requires Enabled(states[2], steps[2]) && states[3] == Next(states[2], steps[2])
    requires Enabled(states[3], steps[3]) && states[4] == Next(states[3], steps[3])
    ensures IsRun(states, steps)
  {
    hide Next, Enabled;
    assert MovesAt(states, steps, 0) && MovesAt(states, steps, 1);
    assert MovesAt(states, steps, 2) && MovesAt(states, steps, 3);
  }

  lemma FirstInsertGoesThrough(s: State, q: Request, id: AttemptId)
    requires s.r.attempts == map[] && !Refused(q)
    ensures InsertAnswer(s.r, q, id).Yes?
    ensures Inserted(s.r, q, id).attempts == map[id := Attempt(q.route, q.auth, q.now + q.ttl, s.r.flags, q.state)]
    ensures Inserted(s.r, q, id).raised == s.r.raised
  {
    assert Swept(s.r, q.now).attempts == map[];
  }
}
