/**
 Any number of callers preserving the same profile at once: opening, staging, renaming, listing and pruning
 interleave freely, and every one of them may stop anywhere.
 */
module ProfileRace {
  import opened Common
  import opened RecordName
  import opened ProfileLog
  import opened RecordOrder
  import opened ProfileWrite

  type WriterId = nat

  datatype Writer =
    | Idle
    | Opened
    | Staged(nonce: string)
    | Renamed(name: string)
    | Pruning(name: string, victims: set<string>)
    | Done

  /** `created` remembers every file name a preserve has ever renamed into place. */
  datatype State = State(dir: Dir, writers: map<WriterId, Writer>, created: set<string>)

  /** The directory the callers start from: a readable log whose current record is active. */
  datatype Origin = Origin(dir: Dir, current: string)

  ghost predicate Starts(o: Origin) {
    && IsCurrent(o.dir, o.current) && o.dir[o.current].Json?
    && o.dir[o.current].record.lifecycle == Active && o.dir[o.current].record.generation < U64_MAX
  }

  /** The record every preserve of this origin writes. */
  function NewRecord(o: Origin): Record
    requires o.current in o.dir && o.dir[o.current].Json?
  {
    Record(o.dir[o.current].record.generation + 1, o.dir[o.current].record.binding, Preserved, true)
  }

  datatype Step =
    | Open(w: WriterId)
    | Stage(w: WriterId, nonce: string, file: File)
    | Rename(w: WriterId)
    | List(w: WriterId)
    | Remove(w: WriterId, name: string)
    | Stop(w: WriterId, cleans: bool)

  function WriterOf(s: State, w: WriterId): Writer {
    if w in s.writers then s.writers[w] else Idle
  }

  ghost predicate Enabled(s: State, step: Step) {
    match step
    case Open(w) => WriterOf(s, w).Idle?
    case Stage(w, nonce, _) => WriterOf(s, w).Opened? && Nonce(nonce)
    case Rename(w) => WriterOf(s, w).Staged?
    case List(w) => WriterOf(s, w).Renamed?
    case Remove(w, name) => WriterOf(s, w).Pruning? && name in WriterOf(s, w).victims
    case Stop(_, _) => true
  }

  ghost function Victims(dir: Dir, current: string): set<string> {
    set name | name in dir && !Keeps(dir, current, name)
  }

  ghost function NextWriter(o: Origin, s: State, step: Step): Writer
    requires Starts(o) && Enabled(s, step)
  {
    match step
    case Open(_) =>
      if ReadRecord(s.dir).Ok? && ReadRecord(s.dir).value.lifecycle == Active then Opened else Done
    case Stage(_, nonce, _) => Staged(nonce)
    case Rename(w) => Renamed(RecordFileName(NewRecord(o).generation, WriterOf(s, w).nonce))
    case List(w) => Pruning(WriterOf(s, w).name, Victims(s.dir, WriterOf(s, w).name))
    case Remove(w, name) => Pruning(WriterOf(s, w).name, WriterOf(s, w).victims - {name})
    case Stop(_, _) => Done
  }

  ghost function NextDir(o: Origin, s: State, step: Step): Dir
    requires Starts(o) && Enabled(s, step)
  {
    match step
    case Open(_) => s.dir
    case Stage(_, nonce, file) => s.dir[TemporaryName(nonce) := file]
    case Rename(w) => Appended(s.dir - {TemporaryName(WriterOf(s, w).nonce)}, NewRecord(o), WriterOf(s, w).nonce)
    case List(_) => s.dir
    case Remove(_, name) => s.dir - {name}
    case Stop(w, cleans) =>
      if cleans && WriterOf(s, w).Staged? then s.dir - {TemporaryName(WriterOf(s, w).nonce)} else s.dir
  }

  ghost function NextCreated(o: Origin, s: State, step: Step): set<string>
    requires Starts(o) && Enabled(s, step)
  {
    if step.Rename? then s.created + {RecordFileName(NewRecord(o).generation, WriterOf(s, step.w).nonce)} else s.created
  }

  ghost function Next(o: Origin, s: State, step: Step): State
    requires Starts(o) && Enabled(s, step)
  {
    State(NextDir(o, s, step), s.writers[step.w := NextWriter(o, s, step)], NextCreated(o, s, step))
  }

  // ----- the invariant

  ghost predicate FileShape(o: Origin, dir: Dir, created: set<string>, name: string)
    requires Starts(o) && name in dir
  {
    && GoodFile(name, dir[name])
    && (GenerationOf(name) < NewRecord(o).generation || (name in created && dir[name] == Json(NewRecord(o))))
  }

  /** The greatest name ever renamed into place is still there. */
  ghost predicate Tops(dir: Dir, created: set<string>, top: string) {
    top in created && top in RecordNames(dir) && forall c :: c in created ==> c == top || Newer(top, c)
  }

  ghost predicate LogInv(o: Origin, dir: Dir, created: set<string>)
    requires Starts(o)
  {
    && (forall name :: name in RecordNames(dir) ==> FileShape(o, dir, created, name))
    && (created == {} ==> SameLog(o.dir, dir))
    && (created != {} ==> exists top :: Tops(dir, created, top))
    && (forall c :: c in created ==> GenerationOf(c) == NewRecord(o).generation)
  }

  ghost predicate WriterInv(created: set<string>, writer: Writer) {
    match writer
    case Staged(nonce) => Nonce(nonce)
    case Renamed(name) => name in created
    case Pruning(name, victims) => name in created && forall v :: v in victims ==> Beaten(created, v)
    case _ => true
  }

  ghost predicate Beaten(created: set<string>, name: string) {
    exists c :: c in created && Newer(c, name)
  }

  ghost predicate Inv(o: Origin, s: State)
    requires Starts(o)
  {
    LogInv(o, s.dir, s.created) && forall w :: w in s.writers ==> WriterInv(s.created, s.writers[w])
  }

  ghost predicate Init(o: Origin, s: State) {
    s.dir == o.dir && s.writers == map[] && s.created == {}
  }

  lemma InitInv(o: Origin, s: State)
    requires Starts(o) && Init(o, s)
    ensures Inv(o, s)
  {
    forall name | name in RecordNames(o.dir)
      ensures FileShape(o, o.dir, {}, name)
    {
      CurrentBeats(o.dir, o.current, name);
      GoodGeneration(o.dir, o.current);
    }
    hide FileShape;
  }

  lemma GoodGeneration(dir: Dir, name: string)
    requires AllGood(dir) && name in RecordNames(dir)
    ensures name in dir && dir[name].Json? && GenerationOf(name) == dir[name].record.generation
  {
  }

  /** Names that are no records may come and go. */
  lemma LogInvIgnoresOthers(o: Origin, dir: Dir, now: Dir, created: set<string>)
    requires Starts(o) && LogInv(o, dir, created) && SameLog(dir, now)
    ensures LogInv(o, now, created)
  {
    hide Starts, Newer, LooksLikeRecord, GoodFile;
    if created != {} {
      var top :| Tops(dir, created, top);
      assert Tops(now, created, top);
    }
  }

  lemma NewNameIsGood(o: Origin, nonce: string)
    requires Starts(o) && Nonce(nonce)
    ensures var name := RecordFileName(NewRecord(o).generation, nonce);
            && LooksLikeRecord(name) && GoodFile(name, Json(NewRecord(o)))
            && GenerationOf(name) == NewRecord(o).generation
  {
    var name := RecordFileName(NewRecord(o).generation, nonce);
    NameRoundTrip(NewRecord(o).generation, nonce);
    NameShapes(name);
  }

  lemma RenameKeepsLog(o: Origin, dir: Dir, created: set<string>, nonce: string)
    requires Starts(o) && LogInv(o, dir, created) && Nonce(nonce)
    ensures LogInv(o, Appended(dir, NewRecord(o), nonce), created + {RecordFileName(NewRecord(o).generation, nonce)})
  {
    var name := RecordFileName(NewRecord(o).generation, nonce);
    var after, more := Appended(dir, NewRecord(o), nonce), created + {name};
    NewNameIsGood(o, nonce);
    hide Starts, Newer, LooksLikeRecord, GoodFile, RecordFileName, GenerationOf;
    assert name in RecordNames(after);
    forall other | other in RecordNames(after)
      ensures FileShape(o, after, more, other)
    {
      if other != name {
        assert other in RecordNames(dir);
      }
    }
    hide FileShape;
    TopAfterRename(o, dir, created, name, after);
  }

  lemma TopAfterRename(o: Origin, dir: Dir, created: set<string>, name: string, after: Dir)
    requires Starts(o) && LogInv(o, dir, created)
    requires RecordNames(dir) <= RecordNames(after) && name in RecordNames(after)
    ensures exists top :: Tops(after, created + {name}, top)
  {
    hide Starts, Newer, RecordNames, FileShape, GenerationOf;
    if created == {} {
      assert Tops(after, created + {name}, name);
    } else {
      var top :| Tops(dir, created, top);
      NewerTotal(top, name);
      if Newer(name, top) {
        forall c | c in created && c != top
          ensures Newer(name, c)
        {
          NewerTransitive(name, top, c);
        }
        assert Tops(after, created + {name}, name);
      } else {
        assert Tops(after, created + {name}, top);
      }
    }
  }

  lemma TopIsNotBeaten(dir: Dir, created: set<string>, top: string)
    requires Tops(dir, created, top)
    ensures !Beaten(created, top)
  {
    hide Newer;
    forall c | c in created
      ensures !Newer(c, top)
    {
      NewerTotal(c, top);
    }
  }

  lemma RemoveKeepsLog(o: Origin, dir: Dir, created: set<string>, name: string)
    requires Starts(o) && LogInv(o, dir, created) && Beaten(created, name)
    ensures LogInv(o, dir - {name}, created)
  {
    var top :| Tops(dir, created, top);
    TopIsNotBeaten(dir, created, top);
    hide Starts, Newer, LooksLikeRecord, GoodFile, GenerationOf;
    assert Tops(dir - {name}, created, top);
    forall other | other in RecordNames(dir - {name})
      ensures FileShape(o, dir - {name}, created, other)
    {
      assert other in RecordNames(dir);
    }
  }

  /** Whoever prunes after some rename only ever picks names that a created one beats. */
  lemma VictimsAreBeaten(o: Origin, dir: Dir, created: set<string>, current: string)
    requires Starts(o) && LogInv(o, dir, created) && created != {}
    ensures forall v :: v in Victims(dir, current) ==> Beaten(created, v)
  {
    var top :| Tops(dir, created, top);
    forall other | Prunable(dir, other)
      ensures !Newer(other, top)
    {
      NameShapes(other);
      NewerTotal(other, top);
      assert FileShape(o, dir, created, other);
    }
    assert Ahead(dir, top) == {} by { hide Prunable, Newer; }
    forall v | v in Victims(dir, current)
      ensures Beaten(created, v)
    {
      assert v != top;
      NewerTotal(v, top);
    }
  }

  lemma ReadingBefore(o: Origin, dir: Dir)
    requires Starts(o) && LogInv(o, dir, {})
    ensures ReadRecord(dir) == Ok(o.dir[o.current].record)
  {
    SameRecords(o.dir, dir);
    ReadsCurrent(o.dir, o.current);
  }

  /** After the first rename a reader gets the preserved record or a refusal. */
  lemma ReadingAfter(o: Origin, dir: Dir, created: set<string>)
    requires Starts(o) && LogInv(o, dir, created) && created != {}
    ensures ReadRecord(dir) in {Err, Ok(NewRecord(o))}
  {
    var top :| Tops(dir, created, top);
    if name :| IsCurrent(dir, name) {
      ReadsCurrent(dir, name);
      CurrentBeats(dir, name, top);
      assert FileShape(o, dir, created, name) && GenerationOf(top) == NewRecord(o).generation;
    }
  }

  lemma WritersGrow(created: set<string>, more: set<string>, writer: Writer)
    requires WriterInv(created, writer) && created <= more
    ensures WriterInv(more, writer)
  {
    hide Newer;
    if writer.Pruning? {
      forall v | v in writer.victims
        ensures Beaten(more, v)
      {
        assert Beaten(created, v);
      }
    }
  }

  lemma WriterKept(o: Origin, s: State, step: Step)
    requires Starts(o) && Inv(o, s) && Enabled(s, step)
    ensures WriterInv(NextCreated(o, s, step), NextWriter(o, s, step))
  {
    hide LogInv, ReadRecord, Starts, Victims, Nonce;
    if step.List? {
      VictimsAreBeaten(o, s.dir, s.created, WriterOf(s, step.w).name);
    }
  }

  lemma LogKept(o: Origin, s: State, step: Step)
    requires Starts(o) && Inv(o, s) && Enabled(s, step)
    ensures LogInv(o, NextDir(o, s, step), NextCreated(o, s, step))
  {
    hide LogInv, Starts, Victims, Beaten, SameLog, TemporaryName, RecordFileName, Nonce;
    match step {
      case Open(_) =>
      case Stage(_, nonce, file) =>
        OthersDoNotShow(s.dir, nonce, file);
        LogInvIgnoresOthers(o, s.dir, NextDir(o, s, step), s.created);
      case Rename(w) =>
        TemporaryGone(o, s.dir, s.created, WriterOf(s, w).nonce);
        RenameKeepsLog(o, s.dir - {TemporaryName(WriterOf(s, w).nonce)}, s.created, WriterOf(s, w).nonce);
      case List(_) =>
      case Remove(_, name) => RemoveKeepsLog(o, s.dir, s.created, name);
      case Stop(w, cleans) =>
        if cleans && WriterOf(s, w).Staged? {
          TemporaryGone(o, s.dir, s.created, WriterOf(s, w).nonce);
        }
    }
  }

  lemma TemporaryGone(o: Origin, dir: Dir, created: set<string>, nonce: string)
    requires Starts(o) && LogInv(o, dir, created)
    ensures LogInv(o, dir - {TemporaryName(nonce)}, created)
  {
    NothingSeen(dir);
    RemovalDoesNotShow(dir, dir, nonce);
    LogInvIgnoresOthers(o, dir, dir - {TemporaryName(nonce)}, created);
  }

  lemma InvKept(o: Origin, s: State, step: Step)
    requires Starts(o) && Inv(o, s) && Enabled(s, step)
    ensures Inv(o, Next(o, s, step))
  {
    LogKept(o, s, step);
    WriterKept(o, s, step);
    hide LogInv, Starts, NextDir, NextWriter, WriterInv;
    forall w | w in s.writers
      ensures WriterInv(NextCreated(o, s, step), s.writers[w])
    {
      WritersGrow(s.created, NextCreated(o, s, step), s.writers[w]);
    }
  }

  // ----- what holds in every run

  ghost predicate Moves(o: Origin, s: State, t: State)
    requires Starts(o)
  {
    exists step :: Enabled(s, step) && t == Next(o, s, step)
  }

  ghost predicate MovesAt(o: Origin, run: seq<State>, i: nat)
    requires Starts(o) && i + 1 < |run|
  {
    Moves(o, run[i], run[i + 1])
  }

  ghost predicate IsRun(o: Origin, run: seq<State>) {
    && Starts(o) && run != [] && Init(o, run[0])
    && forall i :: 0 <= i < |run| - 1 ==> MovesAt(o, run, i)
  }

  lemma {:induction false} RunInvariant(o: Origin, run: seq<State>, i: nat)
    requires IsRun(o, run) && i < |run|
    ensures Inv(o, run[i])
  {
    hide Inv, Starts, Next, Enabled;
    if i == 0 {
      InitInv(o, run[0]);
    } else {
      RunInvariant(o, run, i - 1);
      assert MovesAt(o, run, i - 1);
      var step :| Enabled(run[i - 1], step) && run[i] == Next(o, run[i - 1], step);
      InvKept(o, run[i - 1], step);
    }
  }

  lemma {:induction false} CreatedGrows(o: Origin, run: seq<State>, i: nat, j: nat)
    requires IsRun(o, run) && i <= j < |run|
    ensures run[i].created <= run[j].created
  {
    hide Starts, NextDir, NextWriter, Enabled;
    if i < j {
      CreatedGrows(o, run, i, j - 1);
      assert MovesAt(o, run, j - 1);
      var step :| Enabled(run[j - 1], step) && run[j] == Next(o, run[j - 1], step);
    }
  }

  /** The check a launch makes with a handle it opened earlier. */
  ghost predicate Revalidates(dir: Dir, generation: nat, binding: nat) {
    ReadRecord(dir).Ok?
    && ReadRecord(dir).value.generation == generation && ReadRecord(dir).value.binding == binding
    && ReadRecord(dir).value.lifecycle == Active
  }

  /** Once one preserve has renamed its record in, nobody ever reads an active record and no handle revalidates. */
  lemma PreservedForever(o: Origin, run: seq<State>, i: nat, j: nat, generation: nat, binding: nat)
    requires IsRun(o, run) && i <= j < |run| && run[i].created != {}
    ensures ReadRecord(run[j].dir) in {Err, Ok(NewRecord(o))} && !Revalidates(run[j].dir, generation, binding)
  {
    hide Starts, LogInv, MovesAt;
    RunInvariant(o, run, j);
    CreatedGrows(o, run, i, j);
    ReadingAfter(o, run[j].dir, run[j].created);
  }

  /** Until then readers get the original record, and exactly its own handles revalidate. */
  lemma ActiveUntilThen(o: Origin, run: seq<State>, i: nat, generation: nat, binding: nat)
    requires IsRun(o, run) && i < |run| && run[i].created == {}
    ensures ReadRecord(run[i].dir) == Ok(o.dir[o.current].record)
    ensures Revalidates(run[i].dir, generation, binding)
       <==> generation == o.dir[o.current].record.generation && binding == o.dir[o.current].record.binding
  {
    RunInvariant(o, run, i);
    ReadingBefore(o, run[i].dir);
  }

  // ----- when the log stays readable

  ghost function Latest(o: Origin, dir: Dir): set<string>
    requires Starts(o)
  {
    set name | name in RecordNames(dir) && GenerationOf(name) == NewRecord(o).generation
  }

  /** A reader is refused exactly when two preserves left their records side by side, or the log overflowed. */
  lemma ReadableExactly(o: Origin, run: seq<State>, i: nat)
    requires IsRun(o, run) && i < |run| && run[i].created != {}
    ensures ReadRecord(run[i].dir).Ok? <==>
              |Latest(o, run[i].dir)| == 1 && |RecordNames(run[i].dir)| <= MAX_PROFILE_RECORDS
  {
    RunInvariant(o, run, i);
    ReadableWhen(o, run[i].dir, run[i].created);
  }

  lemma ReadableWhen(o: Origin, dir: Dir, created: set<string>)
    requires Starts(o) && LogInv(o, dir, created) && created != {}
    ensures ReadRecord(dir).Ok? <==> |Latest(o, dir)| == 1 && |RecordNames(dir)| <= MAX_PROFILE_RECORDS
  {
    var top :| Tops(dir, created, top);
    assert top in Latest(o, dir);
    assert AllGood(dir);
    NothingCurrent(dir);
    forall name | name in RecordNames(dir)
      ensures FileShape(o, dir, created, name) && dir[name].Json?
      ensures GenerationOf(name) == dir[name].record.generation <= NewRecord(o).generation
    {
      GoodGeneration(dir, name);
    }
    hide AllGood, RecordNames, FileShape, GenerationOf, Starts, LogInv, NewRecord, Newer, ReadRecord, GoodFile;
    if name :| IsCurrent(dir, name) {
      assert name == top;
      assert Latest(o, dir) == {top};
    }
    if |Latest(o, dir)| == 1 && |RecordNames(dir)| <= MAX_PROFILE_RECORDS {
      OneMember(Latest(o, dir), top);
      forall other | other in RecordNames(dir) && other != top
        ensures dir[other].record.generation < dir[top].record.generation
      {
        assert other !in Latest(o, dir);
      }
      assert IsCurrent(dir, top);
    }
  }

  lemma OneMember<T>(s: set<T>, x: T)
    requires |s| == 1 && x in s
    ensures s == {x}
  {
    assert s == {x} + (s - {x});
    assert |s - {x}| == 0;
  }

  predicate Busy(writer: Writer) {
    writer.Opened? || writer.Staged?
  }

  /** No two callers are between their opening and their rename. */
  ghost predicate Exclusive(s: State) {
    forall v, w :: v in s.writers && w in s.writers && Busy(s.writers[v]) && Busy(s.writers[w]) ==> v == w
  }

  ghost predicate Single(s: State) {
    s.created == {} ||
    (|s.created| == 1 && (forall w :: w in s.writers ==> !Busy(s.writers[w])))
  }

  lemma SingleKept(o: Origin, s: State, step: Step)
    requires Starts(o) && Inv(o, s) && Enabled(s, step) && Single(s) && Exclusive(s)
    ensures Single(Next(o, s, step))
  {
    if s.created != {} {
      ReadingAfter(o, s.dir, s.created);
    }
    hide Starts, NextDir, ReadRecord, LogInv, WriterInv, RecordFileName, Victims, Nonce;
    assert step.Rename? ==> Busy(WriterOf(s, step.w)) && s.created == {};
  }

  lemma {:induction false} SingleInRun(o: Origin, run: seq<State>, i: nat)
    requires IsRun(o, run) && i < |run| && forall k :: 0 <= k < |run| ==> Exclusive(run[k])
    ensures Single(run[i])
  {
    hide Inv, Starts, Next, Enabled, Exclusive;
    if i > 0 {
      SingleInRun(o, run, i - 1);
      RunInvariant(o, run, i - 1);
      assert MovesAt(o, run, i - 1);
      var step :| Enabled(run[i - 1], step) && run[i] == Next(o, run[i - 1], step);
      SingleKept(o, run[i - 1], step);
    }
  }

  /** The records on disk are original ones and created ones. */
  lemma {:induction false} NothingElseAppears(o: Origin, run: seq<State>, i: nat)
    requires IsRun(o, run) && i < |run|
    ensures RecordNames(run[i].dir) <= RecordNames(o.dir) + run[i].created
  {
    hide Starts, NextWriter;
    if i > 0 {
      NothingElseAppears(o, run, i - 1);
      assert MovesAt(o, run, i - 1);
      var step :| Enabled(run[i - 1], step) && run[i] == Next(o, run[i - 1], step);
      NamesAfter(o, run[i - 1], step);
    }
  }

  lemma NamesAfter(o: Origin, s: State, step: Step)
    requires Starts(o) && Enabled(s, step)
    ensures RecordNames(NextDir(o, s, step)) <= RecordNames(s.dir) + NextCreated(o, s, step)
  {
    if step.Stage? {
      TemporaryIsNoRecord(step.nonce);
    }
    hide Starts, LooksLikeRecord, RecordFileName, TemporaryName;
  }

  /** Preserves that do not overlap before their rename keep the log readable at every moment: old record, then new. */
  lemma ExclusivePreservesStayReadable(o: Origin, run: seq<State>, i: nat)
    requires IsRun(o, run) && i < |run| && forall k :: 0 <= k < |run| ==> Exclusive(run[k])
    requires |RecordNames(o.dir)| < MAX_PROFILE_RECORDS
    ensures ReadRecord(run[i].dir)
         == Ok(if run[i].created == {} then o.dir[o.current].record else NewRecord(o))
  {
    SingleInRun(o, run, i);
    RunInvariant(o, run, i);
    if run[i].created == {} {
      ReadingBefore(o, run[i].dir);
    } else {
      NothingElseAppears(o, run, i);
      SubsetSize(RecordNames(run[i].dir), RecordNames(o.dir) + run[i].created);
      LatestAreCreated(o, run[i].dir, run[i].created);
      ReadableWhen(o, run[i].dir, run[i].created);
      ReadingAfter(o, run[i].dir, run[i].created);
      hide RecordNames, LogInv, Starts, Latest, ReadRecord, Exclusive, MovesAt;
      SubsetSize(Latest(o, run[i].dir), run[i].created);
    }
  }

  lemma LatestAreCreated(o: Origin, dir: Dir, created: set<string>)
    requires Starts(o) && LogInv(o, dir, created)
    ensures Latest(o, dir) <= created && (created != {} ==> Latest(o, dir) != {})
  {
    forall name | name in Latest(o, dir)
      ensures name in created
    {
      assert FileShape(o, dir, created, name);
    }
    if created != {} {
      var top :| Tops(dir, created, top);
      assert top in Latest(o, dir);
    }
  }

  lemma NoncesMakeNames(g: nat, a: string, b: string)
    requires Nonce(a) && Nonce(b) && a != b
    ensures RecordFileName(g, a) != RecordFileName(g, b)
  {
    var front := PREFIX + Padded(g, GENERATION_DIGITS) + "-";
    assert RecordFileName(g, a)[|front|..|front| + NONCE_DIGITS] == a;
    assert RecordFileName(g, b)[|front|..|front| + NONCE_DIGITS] == b;
  }

  lemma OpenMoves(o: Origin, s: State, w: WriterId)
    requires Starts(o) && WriterOf(s, w).Idle? && s.dir == o.dir
    ensures Moves(o, s, State(s.dir, s.writers[w := Opened], s.created))
  {
    ReadsCurrent(o.dir, o.current);
    assert Enabled(s, Open(w)) && State(s.dir, s.writers[w := Opened], s.created) == Next(o, s, Open(w));
  }

  lemma StageMoves(o: Origin, s: State, w: WriterId, nonce: string, file: File)
    requires Starts(o) && WriterOf(s, w).Opened? && Nonce(nonce)
    ensures Moves(o, s, State(s.dir[TemporaryName(nonce) := file], s.writers[w := Staged(nonce)], s.created))
  {
    var t := State(s.dir[TemporaryName(nonce) := file], s.writers[w := Staged(nonce)], s.created);
    assert Enabled(s, Stage(w, nonce, file)) && t == Next(o, s, Stage(w, nonce, file));
  }

  lemma RenameMoves(o: Origin, s: State, w: WriterId, nonce: string)
    requires Starts(o) && WriterOf(s, w) == Staged(nonce)
    ensures var name := RecordFileName(NewRecord(o).generation, nonce);
            Moves(o, s, State(Appended(s.dir - {TemporaryName(nonce)}, NewRecord(o), nonce),
                              s.writers[w := Renamed(name)], s.created + {name}))
  {
    var name := RecordFileName(NewRecord(o).generation, nonce);
    var t := State(Appended(s.dir - {TemporaryName(nonce)}, NewRecord(o), nonce),
                   s.writers[w := Renamed(name)], s.created + {name});
    assert Enabled(s, Rename(w)) && t == Next(o, s, Rename(w));
  }

  lemma Extend(o: Origin, run: seq<State>, s: State, t: State) returns (more: seq<State>)
    requires IsRun(o, run) && run != [] && run[|run| - 1] == s && Moves(o, s, t)
    ensures IsRun(o, more) && more != [] && more[|more| - 1] == t
  {
    hide Starts, Moves, Init;
    more := run + [t];
    forall i | 0 <= i < |more| - 1
      ensures MovesAt(o, more, i)
    {
      assert i < |run| - 1 ==> MovesAt(o, run, i);
    }
  }

  ghost function BothOpen(o: Origin): State {
    State(o.dir, map[][0 := Opened][1 := Opened], {})
  }

  ghost function BothStage(s: State, a: string, b: string, file: File): State {
    State(s.dir[TemporaryName(a) := file][TemporaryName(b) := file],
          s.writers[0 := Staged(a)][1 := Staged(b)], s.created)
  }

  ghost function OneRenames(o: Origin, s: State, w: WriterId, nonce: string): State
    requires Starts(o)
  {
    var name := RecordFileName(NewRecord(o).generation, nonce);
    State(Appended(s.dir - {TemporaryName(nonce)}, NewRecord(o), nonce),
          s.writers[w := Renamed(name)], s.created + {name})
  }

  /** Both callers open the active record before either renames; then both rename. */
  ghost function Overlapped(o: Origin, a: string, b: string): State
    requires Starts(o)
  {
    OneRenames(o, OneRenames(o, BothStage(BothOpen(o), a, b, Json(NewRecord(o))), 0, a), 1, b)
  }

  lemma OpenBoth(o: Origin) returns (run: seq<State>)
    requires Starts(o)
    ensures IsRun(o, run) && run[|run| - 1] == BothOpen(o)
  {
    hide Starts, Moves;
    var s := State(o.dir, map[], {});
    OpenMoves(o, s, 0);
    run := Extend(o, [s], s, State(s.dir, s.writers[0 := Opened], s.created));
    hide IsRun;
    s := State(s.dir, s.writers[0 := Opened], s.created);
    OpenMoves(o, s, 1);
    run := Extend(o, run, s, State(s.dir, s.writers[1 := Opened], s.created));
  }

  lemma StageBoth(o: Origin, before: seq<State>, s: State, a: string, b: string, file: File) returns (run: seq<State>)
    requires IsRun(o, before) && before != [] && before[|before| - 1] == s
    requires WriterOf(s, 0).Opened? && WriterOf(s, 1).Opened? && Nonce(a) && Nonce(b)
    ensures IsRun(o, run) && run != [] && run[|run| - 1] == BothStage(s, a, b, file)
  {
    hide Starts, Moves, Nonce, TemporaryName, MovesAt;
    StageMoves(o, s, 0, a, file);
    var t := State(s.dir[TemporaryName(a) := file], s.writers[0 := Staged(a)], s.created);
    run := Extend(o, before, s, t);
    StageMoves(o, t, 1, b, file);
    run := Extend(o, run, t, State(t.dir[TemporaryName(b) := file], t.writers[1 := Staged(b)], t.created));
  }

  lemma OverlapRun(o: Origin, a: string, b: string) returns (run: seq<State>)
    requires Starts(o) && Nonce(a) && Nonce(b)
    ensures IsRun(o, run) && run[|run| - 1] == Overlapped(o, a, b)
  {
    var file := Json(NewRecord(o));
    hide Starts, Moves, Nonce, TemporaryName, RecordFileName, MovesAt, Appended, NewRecord;
    run := OpenBoth(o);
    run := StageBoth(o, run, BothOpen(o), a, b, file);
    hide IsRun;
    var s := BothStage(BothOpen(o), a, b, file);
    RenameMoves(o, s, 0, a);
    run := Extend(o, run, s, OneRenames(o, s, 0, a));
    RenameMoves(o, OneRenames(o, s, 0, a), 1, b);
    run := Extend(o, run, OneRenames(o, s, 0, a), OneRenames(o, OneRenames(o, s, 0, a), 1, b));
  }

  /** From every readable active log, two overlapping preserves lead to a log nobody can read. */
  lemma OverlapBreaksTheLog(o: Origin, a: string, b: string) returns (run: seq<State>)
    requires Starts(o) && Nonce(a) && Nonce(b) && a != b
    ensures IsRun(o, run) && run[|run| - 1] == Overlapped(o, a, b) && ReadRecord(run[|run| - 1].dir) == Err
  {
    hide IsRun, Starts, ReadRecord, Overlapped, Nonce, Latest, RecordNames;
    run := OverlapRun(o, a, b);
    TwoLatest(o, a, b);
    RunIsNotEmpty(o, run);
    ReadableExactly(o, run, |run| - 1);
    NotOk(ReadRecord(run[|run| - 1].dir));
  }

  lemma RunIsNotEmpty(o: Origin, run: seq<State>)
    requires IsRun(o, run)
    ensures run != []
  {
  }

  lemma NotOk(r: Result<Record>)
    ensures !r.Ok? <==> r == Err
  {
  }

  lemma TwoLatest(o: Origin, a: string, b: string)
    requires Starts(o) && Nonce(a) && Nonce(b) && a != b
    ensures |Latest(o, Overlapped(o, a, b).dir)| >= 2 && Overlapped(o, a, b).created != {}
  {
    var g := NewRecord(o).generation;
    NoncesMakeNames(g, a, b);
    NewNameIsGood(o, a);
    NewNameIsGood(o, b);
    BothAreThere(o, a, b);
    assert RecordFileName(g, a) in Overlapped(o, a, b).created;
    hide Starts, RecordFileName, Latest, GoodFile, LooksLikeRecord, Overlapped, GenerationOf, Nonce;
    SubsetSize({RecordFileName(g, a), RecordFileName(g, b)}, Latest(o, Overlapped(o, a, b).dir));
  }

  lemma BothAreThere(o: Origin, a: string, b: string)
    requires Starts(o)
    requires forall nonce :: nonce in {a, b} ==>
               var name := RecordFileName(NewRecord(o).generation, nonce);
               LooksLikeRecord(name) && GenerationOf(name) == NewRecord(o).generation
    ensures RecordFileName(NewRecord(o).generation, a) in Latest(o, Overlapped(o, a, b).dir)
    ensures RecordFileName(NewRecord(o).generation, b) in Latest(o, Overlapped(o, a, b).dir)
  {
    TemporaryIsNoRecord(b);
    hide Starts, LooksLikeRecord, RecordFileName, TemporaryName, GenerationOf;
    assert a in {a, b} && b in {a, b};
  }
}
