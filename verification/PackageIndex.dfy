/** Agreement between the files of a prepared runtime package, its index and its manifest. */
module PackageIndex {
  import opened Common

  const MAX_FILES: nat := 4_096
  const MAX_DECLARED_FILES: nat := 128

  /** A file as the index or the manifest declares it. */
  datatype Pair = Pair(path: string, sha: string)

  datatype Entry = Entry(path: string, sha: string, executable: bool)

  datatype Manifest = Manifest(executable: Pair, resources: seq<Pair>)

  /** The paths the source manifest names. */
  datatype Names = Names(executable: string, license: string, notice: string)

  /** The package directory: what each regular file hashes to, and which files have an executable bit. */
  datatype Disk = Disk(files: map<string, string>, runnable: set<string>)

  // ----- paths

  function Split(s: string): (parts: seq<string>)
    ensures |parts| > 0
  {
    if s == [] then [[]]
    else
      var rest := Split(s[1..]);
      if s[0] == '/' then [[]] + rest else [[s[0]] + rest[0]] + rest[1..]
  }

  lemma {:induction false} SplitPlain(s: string)
    requires '/' !in s
    ensures Split(s) == [s]
  {
    if s != [] {
      SplitPlain(s[1..]);
      assert s == [s[0]] + s[1..];
    }
  }

  predicate DotsInside(s: string) {
    exists i :: 0 <= i < |s| - 1 && s[i] == '.' && s[i + 1] == '.'
  }

  predicate AnyPart(s: string, bad: set<string>) {
    exists k :: 0 <= k < |Split(s)| && Split(s)[k] in bad
  }

  /** Parts with slashes between them. */
  function JoinParts(parts: seq<string>): string
    requires parts != []
  {
    if |parts| == 1 then parts[0] else parts[0] + "/" + JoinParts(parts[1..])
  }

  lemma {:induction false} SplitOfJoin(parts: seq<string>)
    requires parts != [] && forall k :: 0 <= k < |parts| ==> '/' !in parts[k]
    ensures Split(JoinParts(parts)) == parts
    decreases |parts|
  {
    if |parts| == 1 {
      SplitPlain(parts[0]);
      assert parts == [parts[0]];
    } else {
      SplitOfJoin(parts[1..]);
      SplitBefore(parts[0], JoinParts(parts[1..]));
      assert parts == [parts[0]] + parts[1..];
    }
  }

  lemma {:induction false} SplitBefore(part: string, rest: string)
    requires '/' !in part
    ensures Split(part + "/" + rest) == [part] + Split(rest)
    decreases |part|
  {
    var s := part + "/" + rest;
    if part == [] {
      assert s[1..] == rest;
    } else {
      SplitBefore(part[1..], rest);
      assert s[1..] == part[1..] + "/" + rest;
      assert [part[0]] + part[1..] == part;
    }
  }

  lemma {:induction false} JoinOfSplit(s: string)
    ensures JoinParts(Split(s)) == s && forall k :: 0 <= k < |Split(s)| ==> '/' !in Split(s)[k]
  {
    if s != [] {
      var rest := Split(s[1..]);
      JoinOfSplit(s[1..]);
      var parts := Split(s);
      if s[0] == '/' {
        assert parts[1..] == rest;
        assert [] + "/" + JoinParts(rest) == s;
      } else {
        assert parts[1..] == rest[1..] && parts[0] == [s[0]] + rest[0];
        if |rest| == 1 {
          assert JoinParts(parts) == [s[0]] + s[1..];
        } else {
          assert JoinParts(parts) == [s[0]] + (rest[0] + "/" + JoinParts(rest[1..]));
        }
        assert s == [s[0]] + s[1..];
      }
    }
  }

  predicate Segment(part: string) {
    part != "" && part != "." && '/' !in part && '\\' !in part && ':' !in part
  }

  lemma {:induction false} CharsOfJoin(parts: seq<string>, c: char)
    requires parts != [] && c != '/'
    ensures c in JoinParts(parts) <==> exists k :: 0 <= k < |parts| && c in parts[k]
    decreases |parts|
  {
    if |parts| > 1 {
      CharsOfJoin(parts[1..], c);
      var rest := parts[1..];
      if k :| 0 <= k < |rest| && c in rest[k] {
        assert c in parts[k + 1];
      }
      assert forall k :: 0 < k < |parts| ==> parts[k] == rest[k - 1];
    }
  }

  /** A path the index may hold: plain segments between single slashes, and no two dots in a row. */
  lemma IndexPathExactly(p: string)
    ensures IndexPath(p) <==> !DotsInside(p) && exists parts ::
              parts != [] && p == JoinParts(parts) && forall k :: 0 <= k < |parts| ==> Segment(parts[k])
  {
    OwnSegments(p);
    JoinOfSplit(p);
    var own := Split(p);
    hide IndexPath, Segment;
    forall parts | parts != [] && p == JoinParts(parts) && forall k :: 0 <= k < |parts| ==> Segment(parts[k])
      ensures forall k :: 0 <= k < |own| ==> Segment(own[k])
    {
      SegmentsHaveNoSlash(parts);
      SplitOfJoin(parts);
    }
    hide Split, JoinParts, DotsInside;
  }

  lemma SegmentsHaveNoSlash(parts: seq<string>)
    requires forall k :: 0 <= k < |parts| ==> Segment(parts[k])
    ensures forall k :: 0 <= k < |parts| ==> '/' !in parts[k]
  {
  }

  lemma OwnSegments(p: string)
    ensures IndexPath(p) <==> !DotsInside(p) && forall k :: 0 <= k < |Split(p)| ==> Segment(Split(p)[k])
  {
    JoinOfSplit(p);
    CharsOfJoin(Split(p), '\\');
    CharsOfJoin(Split(p), ':');
    LeadingSlash(p);
    hide Split, JoinParts, DotsInside;
  }

  lemma LeadingSlash(p: string)
    ensures "/" <= p ==> Split(p)[0] == ""
  {
  }

  predicate Digest(s: string) {
    |s| == 64 && forall i :: 0 <= i < |s| ==> HexChar(s[i])
  }

  /** What the verifier demands of a path in the index. */
  predicate IndexPath(p: string) {
    !("/" <= p) && '\\' !in p && ':' !in p && !DotsInside(p) && !AnyPart(p, {"", "."})
  }

  function Slashes(s: string): (r: string)
    ensures |r| == |s| && forall i :: 0 <= i < |s| ==> r[i] == if s[i] == '\\' then '/' else s[i]
  {
    seq(|s|, i requires 0 <= i < |s| => if s[i] == '\\' then '/' else s[i])
  }

  // ----- the joined key

  function Key(p: Pair): string {
    p.path + ":" + p.sha
  }

  lemma OneColon(p: Pair, at: nat)
    requires ':' !in p.path && ':' !in p.sha && at < |Key(p)| && Key(p)[at] == ':'
    ensures at == |p.path|
  {
  }

  /** A key made from a path and a digest without colons can only come from that very pair. */
  lemma KeyTellsPairs(declared: Pair, other: Pair)
    requires ':' !in declared.path && ':' !in declared.sha && Key(declared) == Key(other)
    ensures declared == other
  {
    var k := Key(declared);
    var at := |other.path|;
    assert Key(other)[at] == ':';
    OneColon(declared, at);
    assert declared.path == k[..at] && other.path == Key(other)[..at];
    assert declared.sha == k[at + 1..] && other.sha == Key(other)[at + 1..];
  }

  lemma DigestHasNoColon(s: string)
    requires Digest(s)
    ensures ':' !in s
  {
  }

  // ----- the index against the disk

  function PairOf(e: Entry): Pair { Pair(e.path, e.sha) }

  predicate GoodEntry(disk: Disk, e: Entry) {
    && IndexPath(e.path) && Digest(e.sha)
    && e.path in disk.files && disk.files[e.path] == e.sha
    && (e.executable ==> e.path in disk.runnable)
  }

  ghost predicate DistinctPaths(index: seq<Entry>) {
    forall i, j :: 0 <= i < j < |index| ==> index[i].path != index[j].path
  }

  ghost function Paths(index: seq<Entry>): set<string> {
    set e | e in index :: e.path
  }

  /** The names the directory walk reports: backslashes become slashes. */
  function Walked(disk: Disk): set<string> {
    set p | p in disk.files :: Slashes(p)
  }

  /** What acceptance of an index means. */
  ghost predicate IndexMatches(disk: Disk, index: seq<Entry>, names: Names) {
    && 0 < |index| <= MAX_FILES && |disk.files| <= MAX_FILES
    && (forall e :: e in index ==> GoodEntry(disk, e))
    && DistinctPaths(index)
    && Walked(disk) == Paths(index)
    && names.executable in Paths(index) && names.license in Paths(index) && names.notice in Paths(index)
  }

  ghost predicate Checked(disk: Disk, index: seq<Entry>, i: nat, expected: set<string>) {
    && i <= |index| && expected == Paths(index[..i]) && DistinctPaths(index[..i])
    && forall e :: e in index[..i] ==> GoodEntry(disk, e)
  }

  lemma CheckOne(disk: Disk, index: seq<Entry>, i: nat, expected: set<string>)
    requires Checked(disk, index, i, expected) && i < |index|
    ensures GoodEntry(disk, index[i]) && index[i].path !in expected
       <==> Checked(disk, index, i + 1, expected + {index[i].path})
  {
    hide GoodEntry;
    var front, more := index[..i], index[..i + 1];
    assert more == front + [index[i]];
    assert forall e :: e in more <==> e in front || e == index[i];
    assert Paths(more) == Paths(front) + {index[i].path};
    if index[i].path in expected {
      var e :| e in front && e.path == index[i].path;
      var k :| 0 <= k < i && front[k] == e;
      assert more[k].path == more[i].path;
    } else {
      forall k | 0 <= k < i
        ensures more[k].path != more[i].path
      {
        assert front[k] in front;
      }
    }
  }

  lemma SameSizeInclusion(a: set<string>, b: set<string>)
    requires a <= b && |a| == |b|
    ensures a == b
  {
    assert |b - a| == |b| - |a| by { assert b == a + (b - a); }
  }

  /** The file-list check: entries one by one, then a length and a one-way inclusion against the walk. */
  method VerifyPackageFiles(disk: Disk, index: seq<Entry>, names: Names) returns (ok: bool)
    ensures ok <==> IndexMatches(disk, index, names)
  {
    if |index| == 0 || |index| > MAX_FILES {
      return false;
    }
    var expected: set<string> := {};
    assert Checked(disk, index, 0, expected);
    hide Paths, GoodEntry, Checked, DistinctPaths;
    for i := 0 to |index|
      invariant Checked(disk, index, i, expected)
    {
      CheckOne(disk, index, i, expected);
      if !GoodEntry(disk, index[i]) || index[i].path in expected {
        RefusedEntry(disk, index, i, expected);
        return false;
      }
      expected := expected + {index[i].path};
    }
    AllChecked(disk, index, expected);
    if |disk.files| > MAX_FILES {
      return false;
    }
    var actual := Walked(disk);
    if |actual| != |expected| || exists p :: p in actual && p !in expected {
      return false;
    }
    SameSizeInclusion(actual, expected);
    return names.executable in expected && names.license in expected && names.notice in expected;
  }

  lemma RefusedEntry(disk: Disk, index: seq<Entry>, i: nat, expected: set<string>)
    requires Checked(disk, index, i, expected) && i < |index|
    requires !GoodEntry(disk, index[i]) || index[i].path in expected
    ensures !((forall e :: e in index ==> GoodEntry(disk, e)) && DistinctPaths(index))
  {
    hide GoodEntry;
    if index[i].path in expected {
      var e :| e in index[..i] && e.path == index[i].path;
      var k :| 0 <= k < i && index[..i][k] == e;
      assert index[k].path == index[i].path;
    } else {
      assert index[i] in index;
    }
  }

  lemma AllChecked(disk: Disk, index: seq<Entry>, expected: set<string>)
    requires Checked(disk, index, |index|, expected)
    ensures expected == Paths(index) && DistinctPaths(index) && forall e :: e in index ==> GoodEntry(disk, e)
  {
    assert index[..|index|] == index;
  }

  // ----- the manifest against the index

  /** The first entry with the given path. */
  method FindEntry(index: seq<Entry>, path: string) returns (at: nat)
    requires path in Paths(index)
    ensures at < |index| && index[at].path == path
  {
    at := 0;
    while index[at].path != path
      invariant at < |index| && forall k :: 0 <= k < at ==> index[k].path != path
      decreases |index| - at
    {
      assert exists e :: e in index && e.path == path;
      at := at + 1;
    }
  }

  ghost predicate IsResource(index: seq<Entry>, executable: string, p: Pair) {
    exists e :: e in index && e.path != executable && p == PairOf(e)
  }

  /** The manifest lists the executable, and every other indexed file exactly once. */
  ghost predicate ManifestMatches(index: seq<Entry>, executable: string, pinned: Option<string>, m: Manifest) {
    && m.executable.path == executable
    && (exists e :: e in index && PairOf(e) == m.executable)
    && (pinned.Some? ==> m.executable.sha == pinned.value)
    && Distinct(m.resources)
    && forall p :: p in m.resources <==> IsResource(index, executable, p)
  }

  function Keys(resources: seq<Pair>): set<string> {
    set p | p in resources :: Key(p)
  }

  ghost predicate NoColons(index: seq<Entry>) {
    forall e :: e in index ==> ':' !in e.path && ':' !in e.sha
  }

  /** The other files of the index, as pairs. */
  function Others(index: seq<Entry>, executable: string): seq<Pair> {
    if index == [] then []
    else
      var front := Others(index[..|index| - 1], executable);
      var last := index[|index| - 1];
      if last.path == executable then front else front + [PairOf(last)]
  }

  lemma LastIsNew(index: seq<Entry>)
    requires DistinctPaths(index) && index != []
    ensures index[|index| - 1].path !in Paths(index[..|index| - 1])
    ensures Paths(index) == Paths(index[..|index| - 1]) + {index[|index| - 1].path}
  {
    var front, last := index[..|index| - 1], index[|index| - 1];
    assert index == front + [last];
    forall e | e in front
      ensures e.path != last.path
    {
      var k :| 0 <= k < |front| && front[k] == e;
      assert index[k] == e;
    }
  }

  lemma ResourcesGrow(front: seq<Entry>, last: Entry, executable: string, p: Pair)
    ensures IsResource(front + [last], executable, p)
       <==> IsResource(front, executable, p) || (last.path != executable && p == PairOf(last))
  {
    var index := front + [last];
    assert last in index;
    if IsResource(front, executable, p) {
      var e :| e in front && e.path != executable && p == PairOf(e);
      assert e in index;
    }
  }

  lemma {:induction false} OthersAre(index: seq<Entry>, executable: string)
    requires DistinctPaths(index)
    ensures forall p :: p in Others(index, executable) <==> IsResource(index, executable, p)
    ensures Distinct(Others(index, executable))
    ensures |Others(index, executable)| == if executable in Paths(index) then |index| - 1 else |index|
  {
    if index != [] {
      var front, last := index[..|index| - 1], index[|index| - 1];
      OthersAre(front, executable);
      LastIsNew(index);
      assert index == front + [last];
      assert !IsResource(front, executable, PairOf(last));
      forall p
        ensures IsResource(index, executable, p)
           <==> IsResource(front, executable, p) || (last.path != executable && p == PairOf(last))
      {
        ResourcesGrow(front, last, executable, p);
      }
      hide IsResource, Paths, DistinctPaths;
      AppendDistinct(Others(front, executable), PairOf(last));
    }
  }

  lemma AppendDistinct<T>(s: seq<T>, x: T)
    ensures Distinct(s) && x !in s ==> Distinct(s + [x])
  {
  }

  /** The set of a sequence's elements is at most as large, and as large only without repetition. */
  lemma {:induction false} ElementsCount<T>(s: seq<T>)
    ensures |set x | x in s| <= |s| && (|set x | x in s| == |s| ==> Distinct(s))
  {
    if s != [] {
      var front, last := s[..|s| - 1], s[|s| - 1];
      ElementsCount(front);
      assert (set x | x in s) == (set x | x in front) + {last};
      assert last in front ==> (set x | x in s) == (set x | x in front);
      AppendDistinct(front, last);
      assert s == front + [last];
    }
  }

  /** Pigeonhole: a list without repetition, contained in one as long, has the same members; so neither repeats. */
  lemma SameMembers<T>(some: seq<T>, all: seq<T>)
    requires Distinct(some) && |some| == |all| && forall x :: x in some ==> x in all
    ensures Distinct(all) && forall x :: x in all ==> x in some
  {
    DistinctSize(some);
    ElementsCount(all);
    var a, b := set x | x in some, set x | x in all;
    SubsetSize(a, b);
    assert b == a + (b - a);
    assert |b - a| == 0;
    hide Distinct;
    forall x | x in all
      ensures x in some
    {
      assert x in b;
    }
  }

  lemma SameLength<T>(a: seq<T>, b: seq<T>)
    requires Distinct(a) && Distinct(b) && forall x :: x in a <==> x in b
    ensures |a| == |b|
  {
    DistinctSize(a);
    DistinctSize(b);
    assert (set x | x in a) == (set x | x in b);
  }

  ghost predicate Covered(index: seq<Entry>, executable: string, keys: set<string>, i: nat) {
    i <= |index| && forall k :: 0 <= k < i && index[k].path != executable ==> Key(PairOf(index[k])) in keys
  }

  lemma CoveredMeansListed(index: seq<Entry>, executable: string, resources: seq<Pair>)
    requires NoColons(index) && Covered(index, executable, Keys(resources), |index|)
    ensures forall p :: IsResource(index, executable, p) ==> p in resources
  {
    forall p | IsResource(index, executable, p)
      ensures p in resources
    {
      var e :| e in index && e.path != executable && p == PairOf(e);
      var k :| 0 <= k < |index| && index[k] == e;
      var r :| r in resources && Key(r) == Key(p);
      KeyTellsPairs(p, r);
    }
  }

  lemma ListedMeansCovered(index: seq<Entry>, executable: string, resources: seq<Pair>, k: nat)
    requires k < |index| && index[k].path != executable
    requires forall p :: IsResource(index, executable, p) ==> p in resources
    ensures Key(PairOf(index[k])) in Keys(resources)
  {
    assert index[k] in index;
    assert IsResource(index, executable, PairOf(index[k]));
  }

  lemma EntryIsUnique(index: seq<Entry>, at: nat, e: Entry)
    requires DistinctPaths(index) && at < |index| && e in index && e.path == index[at].path
    ensures e == index[at]
  {
    var k :| 0 <= k < |index| && index[k] == e;
    assert k == at;
  }

  /** The manifest comparison: one count and one inclusion of joined keys, which together mean equality. */
  method CompareManifest(index: seq<Entry>, executable: string, pinned: Option<string>, m: Manifest) returns (ok: bool)
    requires executable in Paths(index) && DistinctPaths(index) && NoColons(index)
    ensures ok <==> ManifestMatches(index, executable, pinned, m)
  {
    var at := FindEntry(index, executable);
    ExecutableFirst(index, executable, pinned, m, at);
    OthersAre(index, executable);
    hide Paths, DistinctPaths, IsResource, NoColons, ManifestMatches;
    if pinned.Some? && index[at].sha != pinned.value {
      return false;
    }
    if m.executable != PairOf(index[at]) {
      return false;
    }
    if |m.resources| != |index| - 1 {
      WrongCount(index, executable, m.resources);
      return false;
    }
    var pairs := Keys(m.resources);
    for i := 0 to |index|
      invariant Covered(index, executable, pairs, i)
    {
      if index[i].path != index[at].path && Key(PairOf(index[i])) !in pairs {
        NotCovered(index, executable, m.resources, i);
        return false;
      }
    }
    CoveredMeansListed(index, executable, m.resources);
    SameMembers(Others(index, executable), m.resources);
    return true;
  }

  ghost predicate ResourcesMatch(index: seq<Entry>, executable: string, resources: seq<Pair>) {
    Distinct(resources) && forall p :: p in resources <==> IsResource(index, executable, p)
  }

  lemma ExecutableFirst(index: seq<Entry>, executable: string, pinned: Option<string>, m: Manifest, at: nat)
    requires DistinctPaths(index) && at < |index| && index[at].path == executable
    ensures ManifestMatches(index, executable, pinned, m)
       <==> && m.executable == PairOf(index[at]) && (pinned.Some? ==> index[at].sha == pinned.value)
            && ResourcesMatch(index, executable, m.resources)
  {
    hide IsResource, Distinct;
    assert index[at] in index;
    if e :| e in index && PairOf(e) == m.executable && m.executable.path == executable {
      EntryIsUnique(index, at, e);
    }
  }

  lemma WrongCount(index: seq<Entry>, executable: string, resources: seq<Pair>)
    requires DistinctPaths(index) && executable in Paths(index) && |resources| != |index| - 1
    ensures !ResourcesMatch(index, executable, resources)
  {
    OthersAre(index, executable);
    if ResourcesMatch(index, executable, resources) {
      SameLength(resources, Others(index, executable));
    }
  }

  lemma NotCovered(index: seq<Entry>, executable: string, resources: seq<Pair>, k: nat)
    requires k < |index| && index[k].path != executable && Key(PairOf(index[k])) !in Keys(resources)
    ensures !ResourcesMatch(index, executable, resources)
  {
    if ResourcesMatch(index, executable, resources) {
      ListedMeansCovered(index, executable, resources, k);
    }
  }

  /** Both comparisons, in the order the verifier makes them. */
  method VerifyPrepared(disk: Disk, index: seq<Entry>, names: Names, pinned: Option<string>, m: Manifest)
    returns (ok: bool)
    ensures ok <==> IndexMatches(disk, index, names) && ManifestMatches(index, names.executable, pinned, m)
  {
    ok := VerifyPackageFiles(disk, index, names);
    if ok {
      AcceptedHasNoColons(disk, index, names);
      ok := CompareManifest(index, names.executable, pinned, m);
    }
  }

  lemma AcceptedHasNoColons(disk: Disk, index: seq<Entry>, names: Names)
    requires IndexMatches(disk, index, names)
    ensures NoColons(index)
  {
    forall e | e in index
      ensures ':' !in e.path && ':' !in e.sha
    {
      assert GoodEntry(disk, e);
      DigestHasNoColon(e.sha);
    }
  }

  // ----- what acceptance means

  ghost predicate OnDisk(disk: Disk, p: Pair) {
    p.path in disk.files && disk.files[p.path] == p.sha
  }

  ghost predicate Indexed(index: seq<Entry>, p: Pair) {
    exists e :: e in index && p == PairOf(e)
  }

  ghost predicate Listed(m: Manifest, p: Pair) {
    p == m.executable || p in m.resources
  }

  /** Index and manifest declare the same files and digests, no resource twice, and all of them are on disk. */
  lemma AcceptedMeansSame(disk: Disk, index: seq<Entry>, names: Names, pinned: Option<string>, m: Manifest, p: Pair)
    requires IndexMatches(disk, index, names) && ManifestMatches(index, names.executable, pinned, m)
    ensures Indexed(index, p) <==> Listed(m, p)
    ensures Indexed(index, p) ==> OnDisk(disk, p)
    ensures Distinct(m.resources) && m.executable !in m.resources
    ensures forall e :: e in index && e.executable ==> e.path in disk.runnable
  {
    hide Walked, IndexPath, Digest;
    var x :| x in index && PairOf(x) == m.executable;
    var at :| 0 <= at < |index| && index[at] == x;
    if Indexed(index, p) {
      var e :| e in index && p == PairOf(e);
      assert GoodEntry(disk, e);
      if e.path == names.executable {
        EntryIsUnique(index, at, e);
      } else {
        assert IsResource(index, names.executable, p);
      }
    }
    assert !IsResource(index, names.executable, m.executable);
  }

  /** Nothing else is on disk, exactly if no file name contains a backslash. */
  lemma NothingUndeclared(disk: Disk, index: seq<Entry>, names: Names)
    requires IndexMatches(disk, index, names)
    ensures (forall p :: p in disk.files ==> p in Paths(index)) <==> (forall p :: p in disk.files ==> '\\' !in p)
  {
    hide Digest, DotsInside, AnyPart;
    forall p | p in disk.files && '\\' !in p
      ensures p in Paths(index)
    {
      assert Slashes(p) == p;
      assert Slashes(p) in Walked(disk);
    }
    forall p | p in Paths(index)
      ensures '\\' !in p
    {
      var e :| e in index && e.path == p;
      assert GoodEntry(disk, e);
    }
  }

  function WithFile(disk: Disk, name: string, sha: string): Disk {
    disk.(files := disk.files[name := sha])
  }

  /**
   One more file in an accepted package: it stays accepted if and only if the name, its backslashes read as slashes,
   is a declared one and the walk has room. The manifest comparison does not look at the disk.
   */
  lemma AddedFileAccepted(disk: Disk, index: seq<Entry>, names: Names, name: string, sha: string)
    requires IndexMatches(disk, index, names) && name !in disk.files
    ensures IndexMatches(WithFile(disk, name, sha), index, names)
       <==> Slashes(name) in Paths(index) && |disk.files| < MAX_FILES
  {
    var more := WithFile(disk, name, sha);
    assert more.files.Keys == disk.files.Keys + {name};
    assert |more.files.Keys| == |more.files| && |disk.files.Keys| == |disk.files|;
    assert Walked(more) == Walked(disk) + {Slashes(name)};
    forall e | e in index
      ensures GoodEntry(more, e)
    {
      assert GoodEntry(disk, e) && e.path != name;
    }
    hide GoodEntry, Walked, Paths;
  }

  /** For every accepted package and every slash in a declared path, a file with a backslash there goes unnoticed. */
  lemma BackslashHides(
    disk: Disk, index: seq<Entry>, names: Names, pinned: Option<string>, m: Manifest, path: string, i: nat, sha: string)
    requires IndexMatches(disk, index, names) && ManifestMatches(index, names.executable, pinned, m)
    requires path in Paths(index) && i < |path| && path[i] == '/' && |disk.files| < MAX_FILES
    requires path[i := '\\'] !in disk.files
    ensures var name := path[i := '\\'];
            && IndexMatches(WithFile(disk, name, sha), index, names)
            && ManifestMatches(index, names.executable, pinned, m)
            && name in WithFile(disk, name, sha).files && name !in Paths(index)
  {
    var name := path[i := '\\'];
    var e :| e in index && e.path == path;
    assert GoodEntry(disk, e);
    assert Slashes(name) == path;
    AddedFileAccepted(disk, index, names, name, sha);
    assert name[i] == '\\';
    forall f | f in index
      ensures f.path != name
    {
      assert GoodEntry(disk, f);
    }
  }

  // ----- building a manifest

  predicate SafeChar(c: char) {
    'A' <= c <= 'Z' || 'a' <= c <= 'z' || '0' <= c <= '9' || c in "._+-"
  }

  predicate SafePart(part: string) {
    part !in {"", ".", ".."} && |part| <= 128 && forall i :: 0 <= i < |part| ==> SafeChar(part[i])
  }

  /** The path rule of the source manifests and the package builder: normalised, bounded, plain characters. */
  function SafeRelativePath(value: string): Result<string> {
    var path := Slashes(value);
    if |value| == 0 || |value| > 4_096 then Err
    else if "/" <= path || '\0' in path || ':' in path || |path| > 512 then Err
    else if exists k :: 0 <= k < |Split(path)| && !SafePart(Split(path)[k]) then Err
    else Ok(path)
  }

  /** A path the builder accepts passes the index check exactly if no two dots stand next to each other in it. */
  lemma SafePathInIndex(value: string)
    requires SafeRelativePath(value).Ok?
    ensures IndexPath(SafeRelativePath(value).value) <==> !DotsInside(SafeRelativePath(value).value)
  {
    var path := Slashes(value);
    assert '\\' !in path;
    forall k | 0 <= k < |Split(path)|
      ensures Split(path)[k] !in {"", "."}
    {
      assert SafePart(Split(path)[k]);
    }
    hide DotsInside, SafePart;
  }

  /** Such a path: accepted when building, refused when verifying. */
  lemma DotsPassOnlyTheBuilder()
    ensures SafeRelativePath("a..b") == Ok("a..b") && !IndexPath("a..b")
  {
    assert Slashes("a..b") == "a..b";
    SplitPlain("a..b");
    assert "a..b"[1] == '.' && "a..b"[2] == '.';
  }

  function FindFirst(files: seq<Entry>, path: string): (r: Option<nat>)
    ensures r.Some? ==> r.value < |files| && files[r.value].path == path
    ensures r.None? ==> forall e :: e in files ==> e.path != path
  {
    if files == [] then None
    else if files[0].path == path then Some(0)
    else
      match FindFirst(files[1..], path)
      case None => None
      case Some(i) => Some(i + 1)
  }

  function BuildManifest(files: seq<Entry>, names: Names): Result<Manifest> {
    if |files| == 0 || |files| > MAX_DECLARED_FILES then Err
    else
      match FindFirst(files, names.executable)
      case None => Err
      case Some(at) =>
        if FindFirst(files, names.license).None? || FindFirst(files, names.notice).None? then Err
        else Ok(Manifest(PairOf(files[at]), Others(files, files[at].path)))
  }

  /** The directory holds exactly the listed files. */
  ghost predicate Holds(disk: Disk, files: seq<Entry>) {
    && disk.files.Keys == Paths(files)
    && forall e :: e in files ==>
         e.path in disk.files && disk.files[e.path] == e.sha && (e.executable ==> e.path in disk.runnable)
  }

  ghost predicate Buildable(files: seq<Entry>, names: Names) {
    && 0 < |files| <= MAX_DECLARED_FILES && DistinctPaths(files)
    && (forall e :: e in files ==> SafeRelativePath(e.path) == Ok(e.path) && Digest(e.sha))
    && names.executable in Paths(files) && names.license in Paths(files) && names.notice in Paths(files)
  }

  lemma BuiltManifestMatches(files: seq<Entry>, names: Names, pinned: Option<string>)
    requires Buildable(files, names)
    requires pinned.Some? ==> forall e :: e in files && e.path == names.executable ==> e.sha == pinned.value
    ensures BuildManifest(files, names).Ok?
    ensures ManifestMatches(files, names.executable, pinned, BuildManifest(files, names).value)
  {
    OthersAre(files, names.executable);
    hide Digest, SafeRelativePath, IsResource;
    var at := FindFirst(files, names.executable);
    assert at.Some? && files[at.value] in files;
  }

  lemma BuiltIndexMatches(disk: Disk, files: seq<Entry>, names: Names)
    requires Buildable(files, names) && Holds(disk, files)
    ensures IndexMatches(disk, files, names) <==> forall e :: e in files ==> !DotsInside(e.path)
  {
    forall e | e in files
      ensures GoodEntry(disk, e) <==> !DotsInside(e.path)
      ensures Slashes(e.path) == e.path
    {
      SafePathInIndex(e.path);
    }
    hide Digest, SafeRelativePath, IndexPath, DotsInside, GoodEntry;
    WalkOfPlainNames(disk, files);
    FilesAreFew(disk, files);
  }

  lemma WalkOfPlainNames(disk: Disk, files: seq<Entry>)
    requires disk.files.Keys == Paths(files) && forall e :: e in files ==> Slashes(e.path) == e.path
    ensures Walked(disk) == Paths(files)
  {
    forall p | p in disk.files
      ensures Slashes(p) == p
    {
      assert p in Paths(files);
    }
    forall p | p in Paths(files)
      ensures p in Walked(disk)
    {
      assert p in disk.files && Slashes(p) == p;
    }
  }

  lemma FilesAreFew(disk: Disk, files: seq<Entry>)
    requires disk.files.Keys == Paths(files)
    ensures |disk.files| <= |files|
  {
    PathsAreFew(files);
    assert |disk.files.Keys| == |disk.files|;
  }

  lemma {:induction false} PathsAreFew(files: seq<Entry>)
    ensures |Paths(files)| <= |files|
  {
    if files != [] {
      var front, last := files[..|files| - 1], files[|files| - 1];
      PathsAreFew(front);
      assert files == front + [last];
      assert Paths(files) == Paths(front) + {last.path};
    }
  }

  /** Every package the builder describes passes the verifier, exactly if no name has two dots in a row. */
  lemma BuiltPackagePasses(disk: Disk, files: seq<Entry>, names: Names, pinned: Option<string>)
    requires Buildable(files, names) && Holds(disk, files)
    requires pinned.Some? ==> forall e :: e in files && e.path == names.executable ==> e.sha == pinned.value
    ensures BuildManifest(files, names).Ok?
    ensures && IndexMatches(disk, files, names)
            && ManifestMatches(files, names.executable, pinned, BuildManifest(files, names).value)
       <==> forall e :: e in files ==> !DotsInside(e.path)
  {
    BuiltManifestMatches(files, names, pinned);
    BuiltIndexMatches(disk, files, names);
  }
}
