/** Newest-first order of record entries, and which of them pruning keeps. */
module RecordOrder {
  import opened Common
  import opened RecordName
  import opened ProfileLog

  predicate LexLess(a: string, b: string) {
    if b == [] then false
    else if a == [] then true
    else if a[0] != b[0] then a[0] < b[0]
    else LexLess(a[1..], b[1..])
  }

  lemma {:induction false} LexTotal(a: string, b: string)
    ensures LexLess(a, b) || LexLess(b, a) || a == b
    ensures !(LexLess(a, b) && LexLess(b, a))
  {
    if a != [] && b != [] && a[0] == b[0] {
      LexTotal(a[1..], b[1..]);
      assert a == [a[0]] + a[1..] && b == [b[0]] + b[1..];
    }
  }

  lemma {:induction false} LexTransitive(a: string, b: string, c: string)
    requires LexLess(a, b) && LexLess(b, c)
    ensures LexLess(a, c)
  {
    if a != [] && a[0] == b[0] && b[0] == c[0] {
      LexTransitive(a[1..], b[1..], c[1..]);
    }
  }

  function GenerationOf(name: string): nat {
    match RecordGeneration(name)
    case None => 0
    case Some(g) => g
  }

  /** Higher generations come first, and among equals the greater path. */
  predicate Newer(a: string, b: string) {
    GenerationOf(a) > GenerationOf(b) || (GenerationOf(a) == GenerationOf(b) && LexLess(b, a))
  }

  lemma NewerTotal(a: string, b: string)
    ensures Newer(a, b) || Newer(b, a) || a == b
    ensures !(Newer(a, b) && Newer(b, a))
  {
    hide LexLess, GenerationOf;
    LexTotal(a, b);
  }

  lemma NewerTransitive(a: string, b: string, c: string)
    requires Newer(a, b) && Newer(b, c)
    ensures Newer(a, c)
  {
    hide LexLess, GenerationOf;
    if LexLess(c, b) && LexLess(b, a) {
      LexTransitive(c, b, a);
    }
  }

  ghost predicate NewestFirst(s: seq<string>) {
    forall i, j :: 0 <= i < j < |s| ==> Newer(s[i], s[j])
  }

  function Insert(name: string, s: seq<string>): (r: seq<string>)
    ensures forall x :: x in r <==> x == name || x in s
    ensures |r| == |s| + 1
  {
    if s == [] then [name]
    else if Newer(name, s[0]) then [name] + s
    else [s[0]] + Insert(name, s[1..])
  }

  lemma {:induction false} InsertKeepsOrder(name: string, s: seq<string>)
    requires NewestFirst(s) && name !in s
    ensures NewestFirst(Insert(name, s))
  {
    hide Newer;
    if s != [] {
      NewerTotal(name, s[0]);
      if Newer(name, s[0]) {
        forall i | 1 <= i < |s|
          ensures Newer(name, s[i])
        {
          NewerTransitive(name, s[0], s[i]);
        }
      } else {
        InsertKeepsOrder(name, s[1..]);
        var r := Insert(name, s[1..]);
        forall j | 0 <= j < |r|
          ensures Newer(s[0], r[j])
        {
          assert r[j] in r;
        }
      }
    }
  }

  function Sort(s: seq<string>): (r: seq<string>)
    ensures forall x :: x in r <==> x in s
    ensures |r| == |s|
  {
    if s == [] then [] else Insert(s[0], Sort(s[1..]))
  }

  lemma {:induction false} SortOrders(s: seq<string>)
    requires Distinct(s)
    ensures NewestFirst(Sort(s)) && Distinct(Sort(s))
  {
    hide Newer;
    if s != [] {
      SortOrders(s[1..]);
      InsertKeepsOrder(s[0], Sort(s[1..]));
    }
    var r := Sort(s);
    forall i, j | 0 <= i < j < |r|
      ensures r[i] != r[j]
    {
      NewerTotal(r[i], r[j]);
    }
  }

  // ----- what pruning keeps

  /** The entries pruning looks at: well-formed record names of regular files. */
  predicate Prunable(dir: Dir, name: string) {
    name in dir && RecordGeneration(name).Some? && !dir[name].NotAFile?
  }

  ghost function Ahead(dir: Dir, name: string): set<string> {
    set other | other in dir && Prunable(dir, other) && Newer(other, name)
  }

  /** Kept: everything that is no record, the record just written, and the newest 128. */
  ghost predicate Keeps(dir: Dir, current: string, name: string) {
    !Prunable(dir, name) || name == current || |Ahead(dir, name)| < MAX_RETAINED_PROFILE_RECORDS
  }

  ghost function Pruned(dir: Dir, current: string): Dir {
    map name | name in dir && Keeps(dir, current, name) :: dir[name]
  }

  ghost predicate Submap(small: Dir, big: Dir) {
    forall name :: name in small ==> name in big && small[name] == big[name]
  }

  /** What a pruning that has removed some of its victims has left. */
  ghost predicate PruningOf(dir: Dir, current: string, now: Dir) {
    Submap(now, dir) && Submap(Pruned(dir, current), now)
  }

  ghost predicate OrderOf(dir: Dir, order: seq<string>) {
    Distinct(order) && NewestFirst(order) && forall name :: name in order <==> Prunable(dir, name)
  }

  lemma RankIsIndex(dir: Dir, order: seq<string>, i: nat)
    requires OrderOf(dir, order) && i < |order|
    ensures |Ahead(dir, order[i])| == i
  {
    hide Prunable, Newer;
    var front := order[..i];
    assert Distinct(front);
    DistinctSize(front);
    forall other
      ensures other in Ahead(dir, order[i]) <==> other in front
    {
      if other in Ahead(dir, order[i]) {
        assert other in order;
        var j :| 0 <= j < |order| && order[j] == other;
        NewerTotal(order[j], order[i]);
        assert j < i;
      }
      if other in front {
        var j :| 0 <= j < i && order[j] == other;
        assert other in order;
        PrunableIsThere(dir, other);
      }
    }
    assert Ahead(dir, order[i]) == set x | x in front;
  }

  lemma PrunableIsThere(dir: Dir, name: string)
    ensures Prunable(dir, name) ==> name in dir
  {
  }

  ghost function PrunableNames(dir: Dir): set<string> {
    set name | name in dir && Prunable(dir, name)
  }

  /**
   After a complete pruning exactly the newest 128 records are left, and besides them only the record
   just written when 128 others are newer.
   */
  lemma PruneBound(dir: Dir, current: string, order: seq<string>)
    requires OrderOf(dir, order)
    ensures var kept := PrunableNames(Pruned(dir, current));
            && |kept| <= MAX_RETAINED_PROFILE_RECORDS + 1
            && (|Ahead(dir, current)| < MAX_RETAINED_PROFILE_RECORDS ==>
                  |kept| == Min(|PrunableNames(dir)|, MAX_RETAINED_PROFILE_RECORDS))
  {
    var n := Min(|order|, MAX_RETAINED_PROFILE_RECORDS);
    var kept := PrunableNames(Pruned(dir, current));
    var front := set x | x in order[..n];
    FirstAreKept(dir, current, order);
    DistinctSize(order[..n]);
    DistinctSize(order);
    hide Prunable, Newer, Ahead, Pruned;
    assert PrunableNames(dir) == set x | x in order by {
      forall name
        ensures name in PrunableNames(dir) <==> name in order
      {
        PrunableIsThere(dir, name);
      }
    }
    SubsetSize(kept, front + {current});
  }

  lemma FirstAreKept(dir: Dir, current: string, order: seq<string>)
    requires OrderOf(dir, order)
    ensures var n := Min(|order|, MAX_RETAINED_PROFILE_RECORDS);
            var kept := PrunableNames(Pruned(dir, current));
            && (set x | x in order[..n]) <= kept <= (set x | x in order[..n]) + {current}
            && (|Ahead(dir, current)| < MAX_RETAINED_PROFILE_RECORDS ==> kept == (set x | x in order[..n]))
  {
    var n := Min(|order|, MAX_RETAINED_PROFILE_RECORDS);
    var kept := PrunableNames(Pruned(dir, current));
    forall name
      ensures name in kept <==> name in order && Keeps(dir, current, name)
    {
      KeptNames(dir, current, name);
    }
    forall i: nat | i < |order|
      ensures Prunable(dir, order[i]) && |Ahead(dir, order[i])| == i
    {
      RankIsIndex(dir, order, i);
      assert order[i] in order;
    }
    hide Prunable, Newer, Ahead, Pruned, PrunableNames, OrderOf;
    forall name | name in order
      ensures name in order[..n] <==> |Ahead(dir, name)| < MAX_RETAINED_PROFILE_RECORDS
    {
      var i: nat :| i < |order| && order[i] == name;
      if i < n {
        assert order[..n][i] == name;
      }
      if name in order[..n] {
        var j: nat :| j < n && order[..n][j] == name;
        assert order[j] == name && |Ahead(dir, order[j])| == j;
      }
    }
  }

  lemma KeptNames(dir: Dir, current: string, name: string)
    ensures name in PrunableNames(Pruned(dir, current)) <==> Prunable(dir, name) && Keeps(dir, current, name)
  {
    hide Newer, Ahead, RecordGeneration;
  }
}
