/**
 The append-and-prune log of generation-numbered profile records, and the single current record
 its readers see.
 */
module ProfileLog {
  import opened Common
  import opened RecordName

  const MAX_PROFILE_RECORDS: nat := 1_024
  const MAX_RETAINED_PROFILE_RECORDS: nat := 128

  datatype Lifecycle = Active | Preserved

  /** A decoded record; `valid` stands for the checks that look at one record alone (schema, formats, product table). */
  datatype Record = Record(generation: nat, binding: nat, lifecycle: Lifecycle, valid: bool)

  /** A directory entry: a file that decodes to a record, a file that does not, or no regular file. */
  datatype File = Json(record: Record) | Corrupt | NotAFile

  type Dir = map<string, File>

  // ----- reading

  predicate LooksLikeRecord(name: string) {
    PREFIX <= name && EndsWith(name, SUFFIX)
  }

  function RecordNames(dir: Dir): set<string> {
    set name | name in dir && LooksLikeRecord(name)
  }

  predicate GoodFile(name: string, file: File) {
    file.Json? && file.record.valid && file.record.generation > 0
    && RecordGeneration(name) == Some(file.record.generation)
  }

  predicate AllGood(dir: Dir) {
    forall name :: name in RecordNames(dir) ==> GoodFile(name, dir[name])
  }

  /** The file named holds the one record of the highest generation, in a log with nothing wrong in it. */
  ghost predicate IsCurrent(dir: Dir, name: string) {
    && name in RecordNames(dir) && AllGood(dir) && |RecordNames(dir)| <= MAX_PROFILE_RECORDS
    && forall other :: other in RecordNames(dir) && other != name ==>
         dir[other].Json? && dir[name].Json? && dir[other].record.generation < dir[name].record.generation
  }

  /** The register: what a reader of the directory gets. */
  ghost function ReadRecord(dir: Dir): Result<Record> {
    if exists name :: IsCurrent(dir, name) then
      var name :| IsCurrent(dir, name);
      Ok(dir[name].record)
    else Err
  }

  lemma ReadsCurrent(dir: Dir, name: string)
    requires IsCurrent(dir, name)
    ensures ReadRecord(dir) == Ok(dir[name].record)
  {
    hide AllGood, RecordNames;
    forall other | IsCurrent(dir, other)
      ensures other == name
    {
    }
  }

  /** One listing of the directory: every name once, in an order the file system chooses. */
  ghost predicate Lists(listing: seq<string>, dir: Dir) {
    Distinct(listing) && forall name :: name in dir <==> name in listing
  }

  function Picked(listing: seq<string>): (r: seq<string>)
    ensures forall name :: name in r <==> name in listing && LooksLikeRecord(name)
  {
    if listing == [] then []
    else
      var last := listing[|listing| - 1];
      var front := Picked(listing[..|listing| - 1]);
      assert listing == listing[..|listing| - 1] + [last];
      if LooksLikeRecord(last) then front + [last] else front
  }

  lemma {:induction false} PickedDistinct(listing: seq<string>)
    requires Distinct(listing)
    ensures Distinct(Picked(listing)) && |Picked(listing)| <= |listing|
  {
    hide LooksLikeRecord;
    if listing != [] {
      PickedDistinct(listing[..|listing| - 1]);
      assert listing[|listing| - 1] !in listing[..|listing| - 1];
    }
  }

  lemma PickedNames(listing: seq<string>, dir: Dir)
    requires Lists(listing, dir)
    ensures Distinct(Picked(listing)) && RecordNames(dir) == set name | name in Picked(listing)
    ensures |Picked(listing)| == |RecordNames(dir)|
  {
    hide LooksLikeRecord;
    PickedDistinct(listing);
    DistinctSize(Picked(listing));
  }

  lemma {:induction false} PickedStep(listing: seq<string>, i: nat)
    requires i < |listing|
    ensures Picked(listing[..i + 1])
         == if LooksLikeRecord(listing[i]) then Picked(listing[..i]) + [listing[i]] else Picked(listing[..i])
  {
    hide LooksLikeRecord;
    assert listing[..i + 1][..i] == listing[..i];
  }

  /** The names in `some` are all good, and `records` holds what they decode to. */
  ghost predicate Collected(dir: Dir, some: seq<string>, records: seq<Record>) {
    && |some| == |records|
    && forall k :: 0 <= k < |some| ==>
         some[k] in dir && GoodFile(some[k], dir[some[k]]) && records[k] == dir[some[k]].record
  }

  ghost predicate UniqueNewest(records: seq<Record>, k: nat) {
    k < |records| && forall j :: 0 <= j < |records| && j != k ==> records[j].generation < records[k].generation
  }

  /** The maximum generation, then the records that have it: one answers, none or two refuse. */
  method PickNewest(records: seq<Record>) returns (r: Result<Record>)
    ensures r.Ok? ==> exists k: nat :: UniqueNewest(records, k) && r.value == records[k]
    ensures r.Err? ==> forall k: nat :: !UniqueNewest(records, k)
  {
    if records == [] {
      return Err;
    }
    var max, at := records[0].generation, 0;
    for i := 1 to |records|
      invariant at < |records| && records[at].generation == max
      invariant forall j :: 0 <= j < i ==> records[j].generation <= max
    {
      if records[i].generation > max {
        max, at := records[i].generation, i;
      }
    }
    var current: Option<nat> := None;
    for i := 0 to |records|
      invariant current.None? ==> forall j :: 0 <= j < i ==> records[j].generation < max
      invariant current.Some? ==> current.value < i && records[current.value].generation == max
      invariant current.Some? ==> forall j :: 0 <= j < i && j != current.value ==> records[j].generation < max
    {
      if records[i].generation == max {
        if current.Some? {
          return Err;
        }
        current := Some(i);
      }
    }
    assert current.Some?;
    assert UniqueNewest(records, current.value);
    return Ok(records[current.value]);
  }

  /** The scan of a directory listed in any order, with its early refusals, reads the register. */
  method ReadProfileRecord(dir: Dir, listing: seq<string>) returns (r: Result<Record>)
    requires Lists(listing, dir)
    ensures r == ReadRecord(dir)
  {
    var records: seq<Record> := [];
    assert Picked(listing[..0]) == [];
    assert Collected(dir, Picked(listing[..0]), records);
    PickedNames(listing, dir);
    hide *;
    for i := 0 to |listing|
      invariant Collected(dir, Picked(listing[..i]), records) && |records| <= MAX_PROFILE_RECORDS
    {
      PickedStep(listing, i);
      if LooksLikeRecord(listing[i]) {
        ListedIsThere(dir, listing, i);
        if |records| >= MAX_PROFILE_RECORDS {
          TooMany(dir, listing, i, records);
          return Err;
        }
        if !GoodFile(listing[i], dir[listing[i]]) {
          BadFile(dir, listing[i]);
          return Err;
        }
        CollectOne(dir, Picked(listing[..i]), records, listing[i]);
        records := records + [dir[listing[i]].record];
      }
    }
    assert listing[..|listing|] == listing;
    r := PickNewest(records);
    NewestIsCurrent(dir, listing, records, r);
  }

  lemma ListedIsThere(dir: Dir, listing: seq<string>, i: nat)
    requires Lists(listing, dir) && i < |listing| && LooksLikeRecord(listing[i])
    ensures listing[i] in dir && listing[i] in RecordNames(dir)
    ensures GoodFile(listing[i], dir[listing[i]]) ==> dir[listing[i]].Json?
  {
    hide LooksLikeRecord;
  }

  lemma CollectOne(dir: Dir, some: seq<string>, records: seq<Record>, name: string)
    requires Collected(dir, some, records) && name in dir && GoodFile(name, dir[name])
    ensures dir[name].Json? && Collected(dir, some + [name], records + [dir[name].record])
  {
  }

  lemma {:induction false} TooMany(dir: Dir, listing: seq<string>, i: nat, records: seq<Record>)
    requires Lists(listing, dir) && i < |listing| && LooksLikeRecord(listing[i])
    requires Collected(dir, Picked(listing[..i]), records) && |records| >= MAX_PROFILE_RECORDS
    ensures ReadRecord(dir) == Err
  {
    PickedNames(listing, dir);
    PickedStep(listing, i);
    PickedGrows(listing, i + 1);
    hide RecordNames, Lists, Distinct, LooksLikeRecord;
  }

  lemma {:induction false} PickedGrows(listing: seq<string>, i: nat)
    requires i <= |listing|
    ensures |Picked(listing[..i])| <= |Picked(listing)|
    decreases |listing| - i
  {
    if i < |listing| {
      PickedStep(listing, i);
      PickedGrows(listing, i + 1);
    } else {
      assert listing[..i] == listing;
    }
  }

  lemma BadFile(dir: Dir, name: string)
    requires name in RecordNames(dir) && name in dir && !GoodFile(name, dir[name])
    ensures ReadRecord(dir) == Err
  {
    hide RecordNames, GoodFile;
  }

  lemma NewestIsCurrent(dir: Dir, listing: seq<string>, records: seq<Record>, r: Result<Record>)
    requires Lists(listing, dir) && Collected(dir, Picked(listing), records) && |records| <= MAX_PROFILE_RECORDS
    requires r.Ok? ==> exists k: nat :: UniqueNewest(records, k) && r.value == records[k]
    requires r.Err? ==> forall k: nat :: !UniqueNewest(records, k)
    ensures r == ReadRecord(dir)
  {
    PickedNames(listing, dir);
    forall k: nat | k < |records|
      ensures UniqueNewest(records, k) <==> IsCurrent(dir, Picked(listing)[k])
    {
      CurrentWhere(dir, Picked(listing), records, k);
    }
    hide *;
    if r.Ok? {
      var k: nat :| UniqueNewest(records, k) && r.value == records[k];
      UniqueNewestInRange(records, k);
      ReadsCurrent(dir, Picked(listing)[k]);
      CollectedAt(dir, Picked(listing), records, k);
    } else {
      forall name
        ensures !IsCurrent(dir, name)
      {
        if IsCurrent(dir, name) {
          CollectedSize(dir, Picked(listing), records);
          CurrentIsPicked(dir, name, Picked(listing));
        }
      }
      NothingCurrent(dir);
    }
  }

  lemma NothingCurrent(dir: Dir)
    ensures (ReadRecord(dir) == Err) <==> forall name :: !IsCurrent(dir, name)
  {
    hide IsCurrent;
  }

  lemma UniqueNewestInRange(records: seq<Record>, k: nat)
    requires UniqueNewest(records, k)
    ensures k < |records|
  {
  }

  lemma CollectedSize(dir: Dir, some: seq<string>, records: seq<Record>)
    requires Collected(dir, some, records)
    ensures |some| == |records|
  {
  }

  lemma CollectedAt(dir: Dir, some: seq<string>, records: seq<Record>, k: nat)
    requires Collected(dir, some, records) && k < |records|
    ensures |some| == |records| && some[k] in dir && dir[some[k]].Json? && records[k] == dir[some[k]].record
  {
  }

  lemma CurrentIsPicked(dir: Dir, name: string, names: seq<string>)
    requires IsCurrent(dir, name) && RecordNames(dir) == set n | n in names
    ensures exists k: nat :: k < |names| && names[k] == name
  {
    assert name in names;
  }

  lemma CurrentWhere(dir: Dir, names: seq<string>, records: seq<Record>, k: nat)
    requires Distinct(names) && RecordNames(dir) == (set n | n in names)
    requires |RecordNames(dir)| == |names| <= MAX_PROFILE_RECORDS
    requires Collected(dir, names, records) && k < |records|
    ensures k < |names| && (UniqueNewest(records, k) <==> IsCurrent(dir, names[k]))
  {
    hide RecordNames, GoodFile;
    CollectedAt(dir, names, records, k);
    if UniqueNewest(records, k) {
      assert names[k] in RecordNames(dir);
      forall other | other in RecordNames(dir)
        ensures GoodFile(other, dir[other])
        ensures other != names[k] ==> dir[other].Json? && dir[other].record.generation < dir[names[k]].record.generation
      {
        var j :| 0 <= j < |names| && names[j] == other;
        CollectedAt(dir, names, records, j);
      }
    }
    if IsCurrent(dir, names[k]) {
      forall j | 0 <= j < |records| && j != k
        ensures records[j].generation < records[k].generation
      {
        CollectedAt(dir, names, records, j);
        assert names[j] in RecordNames(dir) && names[j] != names[k];
      }
    }
  }

  // ----- appending

  lemma SameRecords(a: Dir, b: Dir)
    requires RecordNames(a) == RecordNames(b) && forall name :: name in RecordNames(a) ==> a[name] == b[name]
    ensures ReadRecord(a) == ReadRecord(b)
  {
    assert AllGood(a) <==> AllGood(b) by { hide GoodFile, LooksLikeRecord; }
    hide AllGood, RecordNames;
    forall name
      ensures IsCurrent(a, name) <==> IsCurrent(b, name)
    {
    }
    hide IsCurrent;
    if name :| IsCurrent(a, name) {
      ReadsCurrent(a, name);
      ReadsCurrent(b, name);
      CurrentIsThere(a, name);
    }
  }

  lemma CurrentIsThere(dir: Dir, name: string)
    requires IsCurrent(dir, name)
    ensures name in RecordNames(dir) && name in dir && dir[name].Json? && ReadRecord(dir) == Ok(dir[name].record)
  {
    ReadsCurrent(dir, name);
  }

  /** Files that are no records, such as the temporary ones, do not exist for a reader. */
  lemma ReadIgnoresOthers(dir: Dir, name: string, file: File)
    requires !LooksLikeRecord(name)
    ensures ReadRecord(dir[name := file]) == ReadRecord(dir) && ReadRecord(dir - {name}) == ReadRecord(dir)
  {
    hide LooksLikeRecord;
    assert RecordNames(dir[name := file]) == RecordNames(dir);
    assert RecordNames(dir - {name}) == RecordNames(dir);
    SameRecords(dir[name := file], dir);
    SameRecords(dir - {name}, dir);
  }

  lemma AppendedLog(dir: Dir, name: string, record: Record)
    requires AllGood(dir) && name !in dir && LooksLikeRecord(name) && GoodFile(name, Json(record))
    ensures var after := dir[name := Json(record)];
            AllGood(after) && RecordNames(after) == RecordNames(dir) + {name} && name !in RecordNames(dir)
  {
    hide GoodFile, LooksLikeRecord;
  }

  /**
   What adding one more good record to a readable log makes of it: the new record is current exactly if its
   generation is higher and the log has room, an equal generation or a full log makes it unreadable.
   */
  lemma AppendReads(dir: Dir, current: string, name: string, record: Record)
    requires IsCurrent(dir, current) && dir[current].Json?
    requires name !in dir && LooksLikeRecord(name) && GoodFile(name, Json(record))
    ensures var was := dir[current].record;
            ReadRecord(dir[name := Json(record)])
            == if |RecordNames(dir)| == MAX_PROFILE_RECORDS || record.generation == was.generation then Err
               else if record.generation > was.generation then Ok(record) else Ok(was)
    ensures IsCurrent(dir[name := Json(record)], name)
       <==> |RecordNames(dir)| < MAX_PROFILE_RECORDS && record.generation > dir[current].record.generation
  {
    var after := dir[name := Json(record)];
    AppendMovesCurrent(dir, current, name, record);
    NothingCurrent(after);
    hide IsCurrent, RecordNames, GoodFile, LooksLikeRecord, ReadRecord;
    if IsCurrent(after, name) {
      ReadsCurrent(after, name);
    } else if IsCurrent(after, current) {
      ReadsCurrent(after, current);
    }
  }

  lemma AppendMovesCurrent(dir: Dir, current: string, name: string, record: Record)
    requires IsCurrent(dir, current) && dir[current].Json?
    requires name !in dir && LooksLikeRecord(name) && GoodFile(name, Json(record))
    ensures current != name && current in dir && |RecordNames(dir)| <= MAX_PROFILE_RECORDS
    ensures var after := dir[name := Json(record)];
            var room := |RecordNames(dir)| < MAX_PROFILE_RECORDS;
            && (IsCurrent(after, name) <==> room && record.generation > dir[current].record.generation)
            && (IsCurrent(after, current) <==> room && record.generation < dir[current].record.generation)
            && (forall other :: IsCurrent(after, other) ==> other == name || other == current)
  {
    var after := dir[name := Json(record)];
    AppendIsOneMore(dir, current, name, record);
    hide AllGood, RecordNames, GoodFile, LooksLikeRecord, ReadRecord, OneMore;
    NewIsCurrentWhen(dir, after, current, name);
    OldIsCurrentWhen(dir, after, current, name);
    hide IsCurrent;
    forall other | IsCurrent(after, other)
      ensures other == name || other == current
    {
      NobodyElseIsCurrent(dir, after, current, name, other);
    }
  }

  lemma AppendIsOneMore(dir: Dir, current: string, name: string, record: Record)
    requires IsCurrent(dir, current) && dir[current].Json?
    requires name !in dir && LooksLikeRecord(name) && GoodFile(name, Json(record))
    ensures OneMore(dir, dir[name := Json(record)], current, name) && current in dir
  {
    AppendedLog(dir, name, record);
    CurrentIsThere(dir, current);
    RecordsAreThere(dir);
    hide AllGood, RecordNames, GoodFile, LooksLikeRecord, ReadRecord;
  }

  lemma RecordsAreThere(dir: Dir)
    ensures forall n :: n in RecordNames(dir) ==> n in dir
  {
    hide LooksLikeRecord;
  }

  /** `after` is `dir` with one more file, all files good. */
  ghost predicate OneMore(dir: Dir, after: Dir, current: string, name: string) {
    && IsCurrent(dir, current) && dir[current].Json? && name != current && AllGood(after)
    && name !in RecordNames(dir) && RecordNames(after) == RecordNames(dir) + {name}
    && |RecordNames(after)| == |RecordNames(dir)| + 1
    && name in after && after[name].Json?
    && forall n :: n in RecordNames(dir) ==> n in after && n in dir && after[n] == dir[n]
  }

  lemma NewIsCurrentWhen(dir: Dir, after: Dir, current: string, name: string)
    requires OneMore(dir, after, current, name)
    ensures IsCurrent(after, name) <==>
              |RecordNames(dir)| < MAX_PROFILE_RECORDS && after[name].record.generation > dir[current].record.generation
  {
    hide AllGood, RecordNames;
    assert IsCurrent(after, name) ==> current in RecordNames(after) && current != name;
  }

  lemma OldIsCurrentWhen(dir: Dir, after: Dir, current: string, name: string)
    requires OneMore(dir, after, current, name)
    ensures IsCurrent(after, current) <==>
              |RecordNames(dir)| < MAX_PROFILE_RECORDS && after[name].record.generation < dir[current].record.generation
  {
    hide AllGood, RecordNames;
    assert IsCurrent(after, current) ==> name in RecordNames(after) && current != name;
  }

  lemma NobodyElseIsCurrent(dir: Dir, after: Dir, current: string, name: string, other: string)
    requires OneMore(dir, after, current, name) && IsCurrent(after, other)
    ensures other == name || other == current
  {
    hide AllGood, RecordNames;
    assert other in RecordNames(after) && current in RecordNames(after);
  }
}
