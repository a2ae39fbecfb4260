/** Writing a record: temporary file, rename, pruning, directory sync, and a failure or a crash anywhere between. */
module ProfileWrite {
  import opened Common
  import opened RecordName
  import opened ProfileLog
  import opened RecordOrder

  function TemporaryName(nonce: string): string {
    ".profile-" + nonce + ".tmp"
  }

  lemma TemporaryIsNoRecord(nonce: string)
    ensures !LooksLikeRecord(TemporaryName(nonce))
  {
    assert TemporaryName(nonce)[0] == '.' && PREFIX[0] == 'p';
  }

  /** A register write seen from outside: first the old reading, then the new one and no other. */
  ghost predicate ReadsOldThenNew(was: Result<Record>, record: Record, olds: seq<Dir>, news: seq<Dir>) {
    && (forall k :: 0 <= k < |olds| ==> ReadRecord(olds[k]) == was)
    && (forall k :: 0 <= k < |news| ==> ReadRecord(news[k]) == Ok(record))
  }

  ghost predicate SameLog(a: Dir, b: Dir) {
    RecordNames(a) == RecordNames(b) && forall name :: name in RecordNames(a) ==> a[name] == b[name]
  }

  function Appended(dir: Dir, record: Record, nonce: string): Dir {
    dir[RecordFileName(record.generation, nonce) := Json(record)]
  }

  /** The record a written file holds is the current one of the log it joins. */
  ghost predicate Appendable(dir: Dir, record: Record, nonce: string) {
    IsCurrent(Appended(dir, record, nonce), RecordFileName(record.generation, nonce))
  }

  lemma {:induction false} PruningKeepsCurrent(dir: Dir, current: string, now: Dir)
    requires IsCurrent(dir, current) && PruningOf(dir, current, now)
    ensures IsCurrent(now, current) && ReadRecord(now) == ReadRecord(dir)
  {
    CurrentIsThere(dir, current);
    assert current in Pruned(dir, current);
    assert RecordNames(now) <= RecordNames(dir) by { hide LooksLikeRecord; }
    SubsetSize(RecordNames(now), RecordNames(dir));
    assert current in RecordNames(now);
    assert AllGood(now) by { hide GoodFile, LooksLikeRecord, Pruned; }
    hide AllGood, RecordNames, Pruned;
    ReadsCurrent(now, current);
    ReadsCurrent(dir, current);
  }

  /** A current record heads the order, so pruning leaves at most 128 record files. */
  lemma PruningBounds(dir: Dir, current: string, order: seq<string>)
    requires IsCurrent(dir, current) && OrderOf(dir, order)
    ensures |RecordNames(Pruned(dir, current))| == Min(|RecordNames(dir)|, MAX_RETAINED_PROFILE_RECORDS)
  {
    PruneBound(dir, current, order);
    CurrentIsAhead(dir, current);
    RecordsArePrunable(dir);
    assert PruningOf(dir, current, Pruned(dir, current)) by { hide Keeps; }
    PruningKeepsCurrent(dir, current, Pruned(dir, current));
    assert AllGood(Pruned(dir, current));
    RecordsArePrunable(Pruned(dir, current));
  }

  lemma RecordsArePrunable(dir: Dir)
    requires AllGood(dir)
    ensures RecordNames(dir) == PrunableNames(dir)
  {
    forall name
      ensures name in RecordNames(dir) <==> name in PrunableNames(dir)
    {
      NameShapes(name);
    }
  }

  lemma NameShapes(name: string)
    ensures RecordGeneration(name).Some? ==> LooksLikeRecord(name)
  {
    if RecordGeneration(name).Some? {
      var rest := name[|PREFIX|..];
      assert name[|name| - |SUFFIX|..] == rest[|rest| - |SUFFIX|..];
    }
  }

  lemma CurrentIsAhead(dir: Dir, current: string)
    requires IsCurrent(dir, current)
    ensures Ahead(dir, current) == {}
  {
    CurrentIsThere(dir, current);
    RecordsArePrunable(dir);
    forall other | other in PrunableNames(dir)
      ensures !Newer(other, current)
    {
      assert other in RecordNames(dir);
      NewerTotal(other, current);
      CurrentBeats(dir, current, other);
    }
    hide Prunable, Newer;
  }

  lemma CurrentBeats(dir: Dir, current: string, other: string)
    requires IsCurrent(dir, current) && other in RecordNames(dir)
    ensures other != current ==> GenerationOf(other) < GenerationOf(current)
  {
    hide RecordGeneration, LooksLikeRecord;
    assert GoodFile(other, dir[other]) && GoodFile(current, dir[current]);
  }

  /** The entries a listing gives pruning: well-formed names of regular files. */
  function Candidates(dir: Dir, listing: seq<string>): (r: seq<string>)
    ensures forall name :: name in r <==> name in listing && Prunable(dir, name)
  {
    if listing == [] then []
    else
      var last := listing[|listing| - 1];
      var front := Candidates(dir, listing[..|listing| - 1]);
      assert listing == listing[..|listing| - 1] + [last];
      if Prunable(dir, last) then front + [last] else front
  }

  lemma {:induction false} CandidatesDistinct(dir: Dir, listing: seq<string>)
    requires Distinct(listing)
    ensures Distinct(Candidates(dir, listing))
  {
    hide Prunable;
    if listing != [] {
      CandidatesDistinct(dir, listing[..|listing| - 1]);
      assert listing[|listing| - 1] !in listing[..|listing| - 1];
    }
  }

  lemma SortedCandidates(dir: Dir, listing: seq<string>)
    requires Lists(listing, dir)
    ensures OrderOf(dir, Sort(Candidates(dir, listing)))
  {
    CandidatesDistinct(dir, listing);
    SortOrders(Candidates(dir, listing));
    forall name
      ensures name in Candidates(dir, listing) <==> Prunable(dir, name)
    {
      PrunableIsThere(dir, name);
    }
  }

  /** The first `i` names of the order are dealt with, and nothing else has been touched. */
  ghost predicate PrunedSoFar(dir: Dir, current: string, order: seq<string>, i: nat, now: Dir) {
    && i <= |order|
    && Submap(now, dir)
    && (forall name :: name in dir && Keeps(dir, current, name) ==> name in now)
    && (forall j :: 0 <= j < i ==> (order[j] in now <==> Keeps(dir, current, order[j])))
    && (forall j :: i <= j < |order| ==> order[j] in now)
  }

  /** The counter stands for the rank: it decides exactly what is kept. */
  lemma CounterDecides(dir: Dir, current: string, order: seq<string>, i: nat, retained: nat)
    requires OrderOf(dir, order) && i < |order| && RetainedAt(i, retained)
    ensures (order[i] == current || retained < MAX_RETAINED_PROFILE_RECORDS) <==> Keeps(dir, current, order[i])
  {
    RankIsIndex(dir, order, i);
    assert order[i] in order;
    hide Ahead, Newer, NewestFirst, Prunable, Distinct;
  }

  predicate RetainedAt(i: nat, retained: nat) {
    && (i < MAX_RETAINED_PROFILE_RECORDS ==> retained == i)
    && (i >= MAX_RETAINED_PROFILE_RECORDS ==> retained >= MAX_RETAINED_PROFILE_RECORDS)
  }

  lemma RetainedMoves(i: nat, retained: nat)
    requires RetainedAt(i, retained)
    ensures RetainedAt(i + 1, retained + 1)
    ensures retained >= MAX_RETAINED_PROFILE_RECORDS ==> RetainedAt(i + 1, retained)
  {
  }

  ghost predicate Prunings(dir: Dir, current: string, points: seq<Dir>) {
    forall k :: 0 <= k < |points| ==> PruningOf(dir, current, points[k])
  }

  lemma PruningSeen(dir: Dir, current: string, points: seq<Dir>, now: Dir)
    requires Prunings(dir, current, points) && PruningOf(dir, current, now)
    ensures Prunings(dir, current, points + [now])
  {
    hide PruningOf;
  }

  ghost predicate SameLogs(dir: Dir, points: seq<Dir>) {
    forall k :: 0 <= k < |points| ==> SameLog(dir, points[k])
  }

  lemma OldLogSeen(dir: Dir, points: seq<Dir>, now: Dir)
    requires SameLogs(dir, points) && SameLog(dir, now)
    ensures SameLogs(dir, points + [now])
  {
    hide SameLog;
  }

  lemma OrderIsShort(dir: Dir, order: seq<string>)
    requires OrderOf(dir, order)
    ensures |order| <= |dir|
  {
    hide Prunable, Newer;
    DistinctSize(order);
    forall name | name in order
      ensures name in dir.Keys
    {
      PrunableIsThere(dir, name);
    }
    SubsetSize((set name | name in order), dir.Keys);
    assert |dir.Keys| == |dir|;
  }

  lemma AppendedSize(dir: Dir, record: Record, nonce: string)
    ensures |Appended(dir, record, nonce)| <= |dir| + 1
  {
    var name := RecordFileName(record.generation, nonce);
    hide RecordFileName;
    var after := Appended(dir, record, nonce);
    assert after.Keys == dir.Keys + {name};
    assert |after.Keys| == |after| && |dir.Keys| == |dir|;
  }

  lemma PruneStarts(dir: Dir, current: string, order: seq<string>)
    requires OrderOf(dir, order)
    ensures PrunedSoFar(dir, current, order, 0, dir) && PruningOf(dir, current, dir) && RetainedAt(0, 0)
    ensures Prunings(dir, current, [])
  {
    hide Prunable, Newer;
    forall j | 0 <= j < |order|
      ensures order[j] in dir
    {
      assert order[j] in order;
      PrunableIsThere(dir, order[j]);
    }
    SoFarIsPruning(dir, current, order, 0, dir);
  }

  lemma PruneKeepsOne(dir: Dir, current: string, order: seq<string>, i: nat, now: Dir)
    requires i < |order| && PrunedSoFar(dir, current, order, i, now) && Keeps(dir, current, order[i])
    ensures PrunedSoFar(dir, current, order, i + 1, now)
  {
    hide Keeps;
  }

  lemma PruneRemovesOne(dir: Dir, current: string, order: seq<string>, i: nat, now: Dir)
    requires Distinct(order) && i < |order| && PrunedSoFar(dir, current, order, i, now)
    requires !Keeps(dir, current, order[i])
    ensures PrunedSoFar(dir, current, order, i + 1, now - {order[i]})
  {
    hide Keeps;
    forall j | 0 <= j < |order| && j != i
      ensures order[j] != order[i]
    {
    }
    hide Distinct;
  }

  lemma SoFarIsPruning(dir: Dir, current: string, order: seq<string>, i: nat, now: Dir)
    requires OrderOf(dir, order) && PrunedSoFar(dir, current, order, i, now)
    ensures PruningOf(dir, current, now)
    ensures i == |order| ==> now == Pruned(dir, current)
  {
    hide Ahead, Newer, NewestFirst, Prunable;
    if i == |order| {
      forall name
        ensures name in now <==> name in Pruned(dir, current)
      {
        if name in now && name in order {
          var j :| 0 <= j < |order| && order[j] == name;
        }
      }
    }
  }

  lemma NothingSeen(dir: Dir)
    ensures SameLogs(dir, []) && SameLog(dir, dir)
  {
  }

  lemma NothingPrunedSeen(dir: Dir, current: string)
    ensures Prunings(dir, current, [])
  {
  }

  lemma OthersDoNotShow(dir: Dir, nonce: string, file: File)
    ensures SameLog(dir, dir[TemporaryName(nonce) := file])
  {
    TemporaryIsNoRecord(nonce);
    hide LooksLikeRecord, TemporaryName;
  }

  lemma RemovalDoesNotShow(dir: Dir, now: Dir, nonce: string)
    requires SameLog(dir, now)
    ensures SameLog(dir, now - {TemporaryName(nonce)})
  {
    TemporaryIsNoRecord(nonce);
    hide LooksLikeRecord, TemporaryName;
  }

  lemma NamesDiffer(generation: nat, nonce: string)
    ensures RecordFileName(generation, nonce) != TemporaryName(nonce)
  {
    assert RecordFileName(generation, nonce)[0] == PREFIX[0] == 'p' && TemporaryName(nonce)[0] == '.';
  }

  lemma RenameIsAppend(dir: Dir, now: Dir, record: Record, nonce: string)
    requires TemporaryName(nonce) !in dir && now == dir[TemporaryName(nonce) := Json(record)]
    ensures (now - {TemporaryName(nonce)})[RecordFileName(record.generation, nonce) := now[TemporaryName(nonce)]]
         == Appended(dir, record, nonce)
  {
    hide TemporaryName, RecordFileName;
  }

  lemma TemporaryIsGone(dir: Dir, record: Record, nonce: string, now: Dir)
    requires TemporaryName(nonce) !in dir
    requires PruningOf(Appended(dir, record, nonce), RecordFileName(record.generation, nonce), now)
    ensures TemporaryName(nonce) !in now
  {
    NamesDiffer(record.generation, nonce);
    hide TemporaryName, RecordFileName, Pruned;
  }

  lemma StartOfPruning(dir: Dir, current: string)
    ensures PruningOf(dir, current, dir) && Prunings(dir, current, [dir])
  {
    hide Keeps;
  }

  lemma AppendPrunings(dir: Dir, current: string, some: seq<Dir>, more: seq<Dir>)
    requires Prunings(dir, current, some) && Prunings(dir, current, more)
    ensures Prunings(dir, current, some + more)
  {
    hide PruningOf;
  }

  /** What the points of a write read, given that the record is the current one of the log it joins. */
  lemma WriteReads(dir: Dir, record: Record, nonce: string, olds: seq<Dir>, news: seq<Dir>, now: Dir)
    requires SameLogs(dir, olds)
    requires Prunings(Appended(dir, record, nonce), RecordFileName(record.generation, nonce), news)
    requires news == [] ==> SameLog(dir, now)
    requires news != [] ==> PruningOf(Appended(dir, record, nonce), RecordFileName(record.generation, nonce), now)
    ensures Appendable(dir, record, nonce) ==>
              && ReadsOldThenNew(ReadRecord(dir), record, olds, news)
              && ReadRecord(now) == (if news == [] then ReadRecord(dir) else Ok(record))
              && |RecordNames(Pruned(Appended(dir, record, nonce), RecordFileName(record.generation, nonce)))|
                 <= MAX_RETAINED_PROFILE_RECORDS
  {
    var name := RecordFileName(record.generation, nonce);
    var after := Appended(dir, record, nonce);
    assert name in after && after[name] == Json(record);
    if Appendable(dir, record, nonce) {
      forall d | PruningOf(after, name, d)
        ensures ReadRecord(d) == Ok(record)
      {
        PruningKeepsCurrent(after, name, d);
        ReadsCurrent(after, name);
      }
      forall d | SameLog(dir, d)
        ensures ReadRecord(d) == ReadRecord(dir)
      {
        SameRecords(dir, d);
      }
      PruningFits(after, name);
      hide SameLog, PruningOf, ReadRecord, Pruned, RecordNames, RecordFileName, Appended;
    }
  }

  lemma {:induction false} SomeListing(names: set<string>) returns (listing: seq<string>)
    ensures Distinct(listing) && forall name :: name in names <==> name in listing
  {
    if names == {} {
      listing := [];
    } else {
      var name :| name in names;
      var rest := SomeListing(names - {name});
      listing := rest + [name];
    }
  }

  lemma PruningFits(dir: Dir, current: string)
    requires IsCurrent(dir, current)
    ensures |RecordNames(Pruned(dir, current))| <= MAX_RETAINED_PROFILE_RECORDS
  {
    var listing := SomeListing(dir.Keys);
    assert Lists(listing, dir);
    SortedCandidates(dir, listing);
    hide *;
    PruningBounds(dir, current, Sort(Candidates(dir, listing)));
  }

  /** Any order in which the file system may list a directory. */
  method ListNames(dir: Dir) returns (listing: seq<string>)
    ensures Lists(listing, dir)
  {
    var left := dir.Keys;
    listing := [];
    while left != {}
      invariant left <= dir.Keys && Distinct(listing)
      invariant forall name :: name in dir <==> name in left || name in listing
      invariant forall name :: name in listing ==> name !in left
      decreases left
    {
      var name :| name in left;
      left, listing := left - {name}, listing + [name];
    }
  }

  class ProfileDirectory {
    var files: Dir
    /** Every content the directory has had: what a crash may leave behind. */
    ghost var history: seq<Dir>

    constructor (files: Dir)
      ensures this.files == files && history == [files]
    {
      this.files, history := files, [files];
    }

    method Become(files: Dir)
      modifies this
      ensures this.files == files && history == old(history) + [files]
    {
      this.files := files;
      history := history + [files];
    }

    /**
     Sorts the records newest first and removes all but the newest 128 and the one just written; stops at
     the first removal that fails.
     */
    method PruneProfileRecords(current: string, removals: nat) returns (ok: bool, ghost points: seq<Dir>)
      modifies this
      ensures history == old(history) + points && Prunings(old(files), current, points)
      ensures PruningOf(old(files), current, files)
      ensures ok ==> files == Pruned(old(files), current)
      ensures removals >= |old(files)| ==> ok
    {
      hide *;
      ghost var dir := files;
      var listing := ListNames(files);
      SortedCandidates(files, listing);
      var order := Sort(Candidates(files, listing));
      var retained, removed := 0, 0;
      points := [];
      PruneStarts(dir, current, order);
      OrderIsShort(dir, order);
      for i := 0 to |order|
        invariant RetainedAt(i, retained) && removed <= i
        invariant PrunedSoFar(dir, current, order, i, files) && PruningOf(dir, current, files)
        invariant history == old(history) + points && Prunings(dir, current, points)
      {
        CounterDecides(dir, current, order, i, retained);
        RetainedMoves(i, retained);
        if order[i] == current || retained < MAX_RETAINED_PROFILE_RECORDS {
          PruneKeepsOne(dir, current, order, i, files);
          retained := retained + 1;
          continue;
        }
        if removed >= removals {
          return false, points;
        }
        PruneRemovesOne(dir, current, order, i, files);
        Become(files - {order[i]});
        SoFarIsPruning(dir, current, order, i + 1, files);
        PruningSeen(dir, current, points, files);
        points := points + [files];
        removed := removed + 1;
      }
      SoFarIsPruning(dir, current, order, |order|, files);
      return true, points;
    }

    /**
     Creates the temporary file and fills it; `done` is how many of its five file operations succeed.
     A reader never sees any of it.
     */
    method WriteTemporary(record: Record, nonce: string, done: nat) returns (ok: bool, ghost points: seq<Dir>)
      modifies this
      ensures history == old(history) + points && SameLogs(old(files), points) && SameLog(old(files), files)
      ensures ok <==> TemporaryName(nonce) !in old(files) && done >= 5
      ensures ok ==> files == old(files)[TemporaryName(nonce) := Json(record)]
    {
      var temporary := TemporaryName(nonce);
      OthersDoNotShow(files, nonce, Corrupt);
      OthersDoNotShow(files, nonce, Json(record));
      hide *;
      points := [];
      ghost var before := files;
      NothingSeen(files);
      if temporary in files || done < 1 {
        return false, points;
      }
      Become(files[temporary := Corrupt]);
      OldLogSeen(before, points, files);
      points := points + [files];
      if done < 2 {
        return false, points;
      }
      assert files[temporary := Json(record)] == before[temporary := Json(record)];
      Become(files[temporary := Json(record)]);
      OldLogSeen(before, points, files);
      points := points + [files];
      return done >= 5, points;
    }

    /**
     Writes one record. `done` is how many file operations succeed before one fails, `syncs` and `cleans`
     decide the last two. What a crash may leave is first `olds`, then `news`.
     */
    method WriteProfileRecord(record: Record, nonce: string, done: nat, syncs: bool, cleans: bool)
      returns (ok: bool, ghost olds: seq<Dir>, ghost news: seq<Dir>)
      modifies this
      ensures history == old(history) + olds + news
      ensures SameLogs(old(files), olds)
      ensures Prunings(Appended(old(files), record, nonce), RecordFileName(record.generation, nonce), news)
      ensures news == [] ==> SameLog(old(files), files)
      ensures var after, name := Appended(old(files), record, nonce), RecordFileName(record.generation, nonce);
              && (news != [] ==> PruningOf(after, name, files))
              && (ok ==> news != [] && files == Pruned(after, name))
      ensures Appendable(old(files), record, nonce) ==> ReadsOldThenNew(ReadRecord(old(files)), record, olds, news)
      ensures Appendable(old(files), record, nonce) ==>
                ReadRecord(files) == (if news == [] then ReadRecord(old(files)) else Ok(record))
      ensures TemporaryName(nonce) !in old(files) && done >= 8 + |old(files)| && syncs ==> ok
      ensures ok || cleans ==> TemporaryName(nonce) !in files
      ensures ok && Appendable(old(files), record, nonce) ==> |RecordNames(files)| <= MAX_RETAINED_PROFILE_RECORDS
    {
      ghost var dir := files;
      var name, temporary := RecordFileName(record.generation, nonce), TemporaryName(nonce);
      ghost var after := Appended(files, record, nonce);
      NamesDiffer(record.generation, nonce);
      AppendedSize(files, record, nonce);
      hide *;
      NothingSeen(files);
      NothingPrunedSeen(after, name);
      ok, olds := WriteTemporary(record, nonce, done);
      news := [];
      if ok && done >= 6 {
        RenameIsAppend(dir, files, record, nonce);
        Become((files - {temporary})[name := files[temporary]]);
        StartOfPruning(after, name);
        news := [files];
        ghost var more;
        ok, more := false, [];
        if done >= 7 {
          ok, more := PruneProfileRecords(name, done - 7);
          AppendPrunings(after, name, news, more);
          news := news + more;
        }
        ok := ok && syncs;
        TemporaryIsGone(dir, record, nonce, files);
      } else {
        ok := false;
        if temporary in files && cleans {
          RemovalDoesNotShow(dir, files, nonce);
          Become(files - {temporary});
          OldLogSeen(dir, olds, files);
          olds := olds + [files];
        }
      }
      WriteReads(dir, record, nonce, olds, news, files);
    }
  }
}
