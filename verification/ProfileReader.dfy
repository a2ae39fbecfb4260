/** A reader that lists the directory once and opens file by file while others rename and prune. */
module ProfileReader {
  import opened Common
  import opened RecordName
  import opened ProfileLog
  import opened RecordOrder
  import opened ProfileWrite
  import opened ProfileRace

  // ----- one scan over a changing directory

  /** A listed record is no longer there when its turn comes; `points[k]` is the directory at the k-th look. */
  ghost predicate Vanished(listing: seq<string>, points: seq<Dir>)
    requires |points| == |listing|
  {
    exists k :: 0 <= k < |listing| && LooksLikeRecord(listing[k]) && listing[k] !in points[k]
  }

  /** The files as they were when the reader opened them. */
  ghost function Snapshot(listing: seq<string>, points: seq<Dir>): Dir
    requires |points| == |listing|
  {
    if listing == [] then map[]
    else
      var n := |listing| - 1;
      var front := Snapshot(listing[..n], points[..n]);
      if LooksLikeRecord(listing[n]) && listing[n] in points[n] then front[listing[n] := points[n][listing[n]]]
      else front
  }

  lemma {:induction false} SnapshotHas(listing: seq<string>, points: seq<Dir>, k: nat)
    requires |points| == |listing| && Distinct(listing)
    requires k < |listing| && LooksLikeRecord(listing[k]) && listing[k] in points[k]
    ensures listing[k] in Snapshot(listing, points) && Snapshot(listing, points)[listing[k]] == points[k][listing[k]]
  {
    hide LooksLikeRecord;
    var n := |listing| - 1;
    if k < n {
      SnapshotHas(listing[..n], points[..n], k);
    }
  }

  lemma {:induction false} SnapshotOnly(listing: seq<string>, points: seq<Dir>, name: string)
    requires |points| == |listing|
    ensures name in Snapshot(listing, points) ==> name in listing && LooksLikeRecord(name)
  {
    hide LooksLikeRecord;
    if listing != [] {
      var n := |listing| - 1;
      SnapshotOnly(listing[..n], points[..n], name);
    }
  }

  lemma SnapshotNames(listing: seq<string>, points: seq<Dir>)
    requires |points| == |listing| && Distinct(listing) && !Vanished(listing, points)
    ensures Lists(Picked(listing), Snapshot(listing, points))
  {
    PickedDistinct(listing);
    hide LooksLikeRecord;
    forall name
      ensures name in Snapshot(listing, points) <==> name in Picked(listing)
    {
      SnapshotOnly(listing, points, name);
      if name in Picked(listing) {
        var k :| 0 <= k < |listing| && listing[k] == name;
        SnapshotHas(listing, points, k);
      }
    }
  }

  /** What the scan answers: refused if a listed record vanished, else what the opened files say. */
  ghost function Observed(listing: seq<string>, points: seq<Dir>): Result<Record>
    requires |points| == |listing|
  {
    if Vanished(listing, points) then Err else ReadRecord(Snapshot(listing, points))
  }

  /** The names picked so far have been opened and are good; `records` is what they held. */
  ghost predicate Opened(listing: seq<string>, points: seq<Dir>, i: nat, records: seq<Record>) {
    && |points| == |listing| && i <= |listing| && |records| == |Picked(listing[..i])|
    && (forall k :: 0 <= k < i && LooksLikeRecord(listing[k]) ==> listing[k] in points[k])
    && (!Vanished(listing, points) ==> Collected(Snapshot(listing, points), Picked(listing[..i]), records))
  }

  lemma OpenOne(listing: seq<string>, points: seq<Dir>, i: nat, records: seq<Record>)
    requires Distinct(listing) && Opened(listing, points, i, records) && i < |listing|
    requires LooksLikeRecord(listing[i]) && listing[i] in points[i] && GoodFile(listing[i], points[i][listing[i]])
    ensures points[i][listing[i]].Json? && Opened(listing, points, i + 1, records + [points[i][listing[i]].record])
  {
    PickedStep(listing, i);
    SnapshotHas(listing, points, i);
    var name, record := listing[i], points[i][listing[i]].record;
    hide LooksLikeRecord, Snapshot, Picked;
    if !Vanished(listing, points) {
      CollectOne(Snapshot(listing, points), Picked(listing[..i]), records, name);
    }
  }

  lemma SkipOne(listing: seq<string>, points: seq<Dir>, i: nat, records: seq<Record>)
    requires Opened(listing, points, i, records) && i < |listing| && !LooksLikeRecord(listing[i])
    ensures Opened(listing, points, i + 1, records)
  {
    PickedStep(listing, i);
    hide LooksLikeRecord, Snapshot, Picked, Collected;
  }

  lemma BadFileRefuses(listing: seq<string>, points: seq<Dir>, i: nat)
    requires |points| == |listing| && Distinct(listing) && i < |listing| && LooksLikeRecord(listing[i])
    requires listing[i] in points[i] ==> !GoodFile(listing[i], points[i][listing[i]])
    ensures Observed(listing, points) == Err
  {
    if !Vanished(listing, points) {
      SnapshotHas(listing, points, i);
      hide LooksLikeRecord, GoodFile, Snapshot;
      assert listing[i] in RecordNames(Snapshot(listing, points));
      BadFile(Snapshot(listing, points), listing[i]);
    }
  }

  lemma TooManyRefuses(listing: seq<string>, points: seq<Dir>, i: nat, records: seq<Record>)
    requires Distinct(listing) && Opened(listing, points, i, records) && i < |listing| && LooksLikeRecord(listing[i])
    requires |records| >= MAX_PROFILE_RECORDS
    ensures Observed(listing, points) == Err
  {
    if !Vanished(listing, points) {
      var dir := Snapshot(listing, points);
      SnapshotNames(listing, points);
      PickedTwice(listing);
      PickedNames(Picked(listing), dir);
      PickedStep(listing, i);
      PickedGrows(listing, i + 1);
      hide *;
      assert |RecordNames(dir)| > MAX_PROFILE_RECORDS;
      OverfullIsRefused(dir);
      ObservedIs(listing, points);
    }
  }

  lemma ObservedIs(listing: seq<string>, points: seq<Dir>)
    requires |points| == |listing| && !Vanished(listing, points)
    ensures Observed(listing, points) == ReadRecord(Snapshot(listing, points))
  {
  }

  lemma OverfullIsRefused(dir: Dir)
    requires |RecordNames(dir)| > MAX_PROFILE_RECORDS
    ensures ReadRecord(dir) == Err
  {
    hide RecordNames, AllGood;
  }

  lemma {:induction false} PickedTwice(listing: seq<string>)
    ensures Picked(Picked(listing)) == Picked(listing)
  {
    hide LooksLikeRecord;
    if listing != [] {
      var front, last := listing[..|listing| - 1], listing[|listing| - 1];
      PickedTwice(front);
      if LooksLikeRecord(last) {
        var p := Picked(front) + [last];
        assert p[..|p| - 1] == Picked(front);
      }
    }
  }

  /** The scan itself: list, then look at one name after the other, with its early refusals. */
  method ReadWhileChanging(listing: seq<string>, points: seq<Dir>) returns (r: Result<Record>)
    requires |points| == |listing| && Distinct(listing)
    ensures r == Observed(listing, points)
  {
    var records: seq<Record> := [];
    NothingOpened(listing, points);
    hide *;
    for i := 0 to |listing|
      invariant Opened(listing, points, i, records) && |records| <= MAX_PROFILE_RECORDS
    {
      if !LooksLikeRecord(listing[i]) {
        SkipOne(listing, points, i, records);
        continue;
      }
      if |records| >= MAX_PROFILE_RECORDS {
        TooManyRefuses(listing, points, i, records);
        return Err;
      }
      if listing[i] !in points[i] || !GoodFile(listing[i], points[i][listing[i]]) {
        BadFileRefuses(listing, points, i);
        return Err;
      }
      OpenOne(listing, points, i, records);
      records := records + [points[i][listing[i]].record];
    }
    r := PickNewest(records);
    AllOpened(listing, points, records, r);
  }

  lemma NothingOpened(listing: seq<string>, points: seq<Dir>)
    requires |points| == |listing|
    ensures Opened(listing, points, 0, [])
  {
    assert listing[..0] == [];
  }

  lemma AllOpened(listing: seq<string>, points: seq<Dir>, records: seq<Record>, r: Result<Record>)
    requires Distinct(listing) && Opened(listing, points, |listing|, records) && |records| <= MAX_PROFILE_RECORDS
    requires r.Ok? ==> exists k: nat :: UniqueNewest(records, k) && r.value == records[k]
    requires r.Err? ==> forall k: nat :: !UniqueNewest(records, k)
    ensures r == Observed(listing, points)
  {
    assert listing[..|listing|] == listing;
    assert !Vanished(listing, points);
    SnapshotNames(listing, points);
    PickedTwice(listing);
    hide LooksLikeRecord, Snapshot, Picked, Collected, UniqueNewest, ReadRecord, Lists;
    NewestIsCurrent(Snapshot(listing, points), Picked(listing), records, r);
  }

  // ----- in a run of preserves

  /** Original records that are there have not changed. */
  ghost predicate OriginalsStay(o: Origin, dir: Dir)
    requires Starts(o)
  {
    forall name :: name in RecordNames(dir) && GenerationOf(name) < NewRecord(o).generation ==>
      name in o.dir && dir[name] == o.dir[name]
  }

  lemma OriginalsStep(o: Origin, s: State, step: Step)
    requires Starts(o) && Inv(o, s) && Enabled(s, step) && OriginalsStay(o, s.dir)
    ensures OriginalsStay(o, NextDir(o, s, step))
  {
    if step.Stage? {
      TemporaryIsNoRecord(step.nonce);
    }
    if step.Rename? {
      assert Nonce(WriterOf(s, step.w).nonce);
      NewNameIsGood(o, WriterOf(s, step.w).nonce);
    }
    hide Starts, LogInv, LooksLikeRecord, RecordFileName, TemporaryName, GenerationOf, Nonce, GoodFile;
  }

  lemma {:induction false} OriginalsInRun(o: Origin, run: seq<State>, i: nat)
    requires IsRun(o, run) && i < |run|
    ensures OriginalsStay(o, run[i].dir)
  {
    if i > 0 {
      OriginalsInRun(o, run, i - 1);
      RunInvariant(o, run, i - 1);
      assert MovesAt(o, run, i - 1);
      hide Inv, Starts, OriginalsStay, NextDir, NextWriter;
      var step :| Enabled(run[i - 1], step) && run[i] == Next(o, run[i - 1], step);
      OriginalsStep(o, run[i - 1], step);
    }
  }

  /** A record file that is there at two moments of a run holds the same both times. */
  lemma ContentStays(o: Origin, run: seq<State>, i: nat, j: nat, name: string)
    requires IsRun(o, run) && i < |run| && j < |run| && name in RecordNames(run[i].dir) && name in run[j].dir
    ensures run[i].dir[name] == run[j].dir[name]
  {
    RunInvariant(o, run, i);
    RunInvariant(o, run, j);
    OriginalsInRun(o, run, i);
    OriginalsInRun(o, run, j);
    assert name in RecordNames(run[j].dir);
    assert FileShape(o, run[i].dir, run[i].created, name) && FileShape(o, run[j].dir, run[j].created, name);
    hide Starts, GoodFile, RecordNames, GenerationOf, IsRun;
  }

  /** The looks of a read that listed the directory at `i`: each at that moment or later. */
  ghost predicate Reads(run: seq<State>, i: nat, listing: seq<string>, times: seq<nat>, points: seq<Dir>) {
    && i < |run| && Lists(listing, run[i].dir) && |times| == |points| == |listing|
    && forall k :: 0 <= k < |listing| ==> i <= times[k] < |run| && points[k] == run[times[k]].dir
  }

  /**
   A read that overlaps any number of preserves takes effect at the moment it lists: it returns what the register
   held then, and is refused exactly if the register was unreadable then or a record was pruned before its turn.
   */
  lemma ReadTakesEffectAtListing(
    o: Origin, run: seq<State>, i: nat, listing: seq<string>, times: seq<nat>, points: seq<Dir>)
    requires IsRun(o, run) && Reads(run, i, listing, times, points)
    ensures Observed(listing, points) == if Vanished(listing, points) then Err else ReadRecord(run[i].dir)
  {
    if !Vanished(listing, points) {
      var dir := Snapshot(listing, points);
      SnapshotNames(listing, points);
      PickedTwice(listing);
      PickedNames(Picked(listing), dir);
      PickedNames(listing, run[i].dir);
      forall name | name in RecordNames(dir)
        ensures name in run[i].dir && dir[name] == run[i].dir[name]
      {
        assert name in Picked(listing);
        var k :| 0 <= k < |listing| && listing[k] == name;
        SnapshotHas(listing, points, k);
        ContentStays(o, run, i, times[k], name);
      }
      hide IsRun, Lists, Picked, Snapshot, RecordNames;
      SameRecords(dir, run[i].dir);
    }
  }

  /** So an active record is only ever read by somebody who listed before the first rename. */
  lemma ActiveReadsBeganBefore(
    o: Origin, run: seq<State>, i: nat, listing: seq<string>, times: seq<nat>, points: seq<Dir>)
    requires IsRun(o, run) && Reads(run, i, listing, times, points)
    requires Observed(listing, points).Ok? && Observed(listing, points).value.lifecycle == Active
    ensures run[i].created == {} && Observed(listing, points).value == o.dir[o.current].record
  {
    ReadTakesEffectAtListing(o, run, i, listing, times, points);
    hide Reads, Observed, Starts, MovesAt;
    if run[i].created == {} {
      ActiveUntilThen(o, run, i, 0, 0);
    } else {
      PreservedForever(o, run, i, i, 0, 0);
    }
  }

  /** Such a read may well end after the rename, when the register already holds the preserved record. */
  lemma StaleReadReturnsActive(o: Origin, nonce: string, listing: seq<string>)
    returns (run: seq<State>, times: seq<nat>, points: seq<Dir>)
    requires Starts(o) && Nonce(nonce) && Lists(listing, o.dir)
    ensures IsRun(o, run) && Reads(run, 0, listing, times, points)
    ensures run[|run| - 1].created != {} && forall k :: 0 <= k < |times| ==> times[k] == |run| - 1
    ensures Observed(listing, points) == Ok(o.dir[o.current].record)
  {
    run := OnePreserves(o, nonce);
    var last := |run| - 1;
    times := seq(|listing|, k => last);
    points := seq(|listing|, k => run[last].dir);
    StaysReadable(o, run, last, nonce, listing, points);
    ReadTakesEffectAtListing(o, run, 0, listing, times, points);
    ActiveUntilThen(o, run, 0, 0, 0);
  }

  /** The directory after one preserve has staged and renamed its record. */
  ghost function Renamed(o: Origin, nonce: string): Dir
    requires Starts(o)
  {
    var staged := o.dir[TemporaryName(nonce) := Json(NewRecord(o))];
    Appended(staged - {TemporaryName(nonce)}, NewRecord(o), nonce)
  }

  lemma StaysReadable(o: Origin, run: seq<State>, last: nat, nonce: string, listing: seq<string>, points: seq<Dir>)
    requires last < |run| && Lists(listing, o.dir) && |points| == |listing|
    requires Starts(o) && run[last].dir == Renamed(o, nonce)
    requires forall k :: 0 <= k < |points| ==> points[k] == run[last].dir
    ensures !Vanished(listing, points)
  {
    TemporaryIsNoRecord(nonce);
    hide Starts, LooksLikeRecord, RecordFileName, TemporaryName, NewRecord;
    forall k | 0 <= k < |listing| && LooksLikeRecord(listing[k])
      ensures listing[k] in points[k]
    {
      assert listing[k] in o.dir && listing[k] != TemporaryName(nonce);
    }
  }

  lemma OnePreserves(o: Origin, nonce: string) returns (run: seq<State>)
    requires Starts(o) && Nonce(nonce)
    ensures IsRun(o, run) && run[0].created == {} && run[0].dir == o.dir && run[|run| - 1].created != {}
    ensures run[|run| - 1].dir == Renamed(o, nonce)
  {
    var file := Json(NewRecord(o));
    hide Starts, Moves, Nonce, TemporaryName, RecordFileName, Appended, NewRecord;
    var s := State(o.dir, map[], {});
    OpenMoves(o, s, 0);
    var t := State(s.dir, s.writers[0 := ProfileRace.Opened], s.created);
    run := Extend(o, [s], s, t);
    StageMoves(o, t, 0, nonce, file);
    var u := State(t.dir[TemporaryName(nonce) := file], t.writers[0 := Staged(nonce)], t.created);
    run := Extend(o, run, t, u);
    RenameMoves(o, u, 0, nonce);
    run := Extend(o, run, u, OneRenames(o, u, 0, nonce));
  }
}
