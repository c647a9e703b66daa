/**
 The digest of an installed tree, and the archive of a distribution. Both walk a directory in whatever order the
 file system gives, sort the entries by relative path, and go through them once.

 The hash is any function of the bytes fed to it.
 */
module TreeDigest {
  import opened Options

  type Word = string
  type Path = seq<Word>

  datatype Kind = File(contents: string, executable: bool) | Link(target: string) | Directory

  /** One entry of a walk: `path` is relative to the root, whose own entry has the empty path. */
  datatype Entry = Entry(path: Path, kind: Kind, owner: nat, modified: nat)

  // ---- The order of paths -----------------------------------------------

  predicate WordLess(a: Word, b: Word) {
    b != [] && (a == [] || a[0] < b[0] || (a[0] == b[0] && WordLess(a[1..], b[1..])))
  }

  /** Paths are compared component by component, not as text. */
  predicate PathLess(p: Path, q: Path) {
    q != [] && (p == [] || WordLess(p[0], q[0]) || (p[0] == q[0] && PathLess(p[1..], q[1..])))
  }

  lemma {:induction false} WordsAreOrdered(a: Word, b: Word)
    ensures WordLess(a, b) ==> !WordLess(b, a) && a != b
    ensures WordLess(a, b) || WordLess(b, a) || a == b
  {
    if a != [] && b != [] {
      WordsAreOrdered(a[1..], b[1..]);
      if a[0] == b[0] && a[1..] == b[1..] {
        assert a == [a[0]] + a[1..] && b == [b[0]] + b[1..];
      }
    }
  }

  lemma {:induction false} WordLessIsTransitive(a: Word, b: Word, c: Word)
    requires WordLess(a, b) && WordLess(b, c)
    ensures WordLess(a, c)
  {
    if a != [] && a[0] == b[0] && b[0] == c[0] {
      WordLessIsTransitive(a[1..], b[1..], c[1..]);
    }
  }

  lemma {:induction false} PathsAreOrdered(p: Path, q: Path)
    ensures PathLess(p, q) ==> !PathLess(q, p) && p != q
    ensures PathLess(p, q) || PathLess(q, p) || p == q
  {
    if p != [] && q != [] {
      WordsAreOrdered(p[0], q[0]);
      PathsAreOrdered(p[1..], q[1..]);
      if p[0] == q[0] && p[1..] == q[1..] {
        assert p == [p[0]] + p[1..] && q == [q[0]] + q[1..];
      }
    }
  }

  lemma {:induction false} PathLessIsTransitive(p: Path, q: Path, r: Path)
    requires PathLess(p, q) && PathLess(q, r)
    ensures PathLess(p, r)
  {
    if p != [] {
      WordsAreOrdered(p[0], q[0]);
      WordsAreOrdered(q[0], r[0]);
      if p[0] == q[0] && q[0] == r[0] {
        PathLessIsTransitive(p[1..], q[1..], r[1..]);
      } else if p[0] != q[0] && q[0] != r[0] {
        WordLessIsTransitive(p[0], q[0], r[0]);
      }
    }
  }

  // ---- Sorting a walk ---------------------------------------------------

  predicate DistinctPaths(walk: seq<Entry>) {
    forall i, j | 0 <= i < j < |walk| :: walk[i].path != walk[j].path
  }

  predicate SortedByPath(walk: seq<Entry>) {
    forall i, j | 0 <= i < j < |walk| :: PathLess(walk[i].path, walk[j].path)
  }

  /** A sorted walk of the same entries. */
  ghost predicate SortOf(sorted: seq<Entry>, walk: seq<Entry>) {
    SortedByPath(sorted) && multiset(sorted) == multiset(walk)
  }

  /** Sorting by relative path: each entry goes after those before it. */
  method SortByPath(walk: seq<Entry>) returns (sorted: seq<Entry>)
    requires DistinctPaths(walk)
    ensures SortOf(sorted, walk)
  {
    hide PathLess;
    sorted := [];
    for i := 0 to |walk|
      invariant SortedByPath(sorted) && multiset(sorted) == multiset(walk[..i])
    {
      assert walk[..i + 1] == walk[..i] + [walk[i]];
      forall e | e in sorted ensures e.path != walk[i].path {
        assert e in multiset(walk[..i]);
      }
      sorted := Insert(sorted, walk[i]);
    }
    assert walk[..|walk|] == walk;
  }

  method Insert(sorted: seq<Entry>, e: Entry) returns (longer: seq<Entry>)
    requires SortedByPath(sorted) && forall f | f in sorted :: f.path != e.path
    ensures SortedByPath(longer) && multiset(longer) == multiset(sorted) + multiset{e}
  {
    hide PathLess;
    var k := |sorted|;
    while k > 0 && PathLess(e.path, sorted[k - 1].path)
      invariant 0 <= k <= |sorted|
      invariant forall i | k <= i < |sorted| :: PathLess(e.path, sorted[i].path)
    {
      k := k - 1;
    }
    BeforeIsLess(sorted, e, k);
    longer := sorted[..k] + [e] + sorted[k..];
    hide SortedByPath;
    InsertedIsSorted(sorted, e, k);
    InsertedIsAll(sorted, e, k);
  }

  lemma InsertedIsAll(sorted: seq<Entry>, e: Entry, k: nat)
    requires k <= |sorted|
    ensures multiset(sorted[..k] + [e] + sorted[k..]) == multiset(sorted) + multiset{e}
  {
    assert sorted == sorted[..k] + sorted[k..];
  }

  lemma BeforeIsLess(sorted: seq<Entry>, e: Entry, k: nat)
    requires SortedByPath(sorted) && (forall f | f in sorted :: f.path != e.path) && k <= |sorted|
    requires k > 0 ==> !PathLess(e.path, sorted[k - 1].path)
    ensures forall i | 0 <= i < k :: PathLess(sorted[i].path, e.path)
  {
    hide PathLess;
    if k > 0 {
      assert sorted[k - 1] in sorted;
      PathsAreOrdered(sorted[k - 1].path, e.path);
      forall i | 0 <= i < k - 1 ensures PathLess(sorted[i].path, e.path) {
        PathLessIsTransitive(sorted[i].path, sorted[k - 1].path, e.path);
      }
    }
  }

  lemma InsertedIsSorted(sorted: seq<Entry>, e: Entry, k: nat)
    requires SortedByPath(sorted) && k <= |sorted|
    requires forall i | 0 <= i < k :: PathLess(sorted[i].path, e.path)
    requires forall i | k <= i < |sorted| :: PathLess(e.path, sorted[i].path)
    ensures SortedByPath(sorted[..k] + [e] + sorted[k..])
  {
    hide PathLess;
    var longer := sorted[..k] + [e] + sorted[k..];
    forall i, j | 0 <= i < j < |longer| ensures PathLess(longer[i].path, longer[j].path) {
      var f, g := longer[i], longer[j];
      assert f == if i < k then sorted[i] else if i == k then e else sorted[i - 1];
      assert g == if j < k then sorted[j] else if j == k then e else sorted[j - 1];
    }
  }

  // ---- The digest -------------------------------------------------------

  /** What the digest reads of an entry: not whether a file is executable, not its owner, not its time. */
  datatype Digested = Digested(path: Path, marker: char, bytes: string)

  function DigestedOf(e: Entry): Digested {
    match e.kind
    case File(contents, _) => Digested(e.path, 'f', contents)
    case Link(target) => Digested(e.path, 'l', target)
    case Directory => Digested(e.path, 'd', "")
  }

  function PathText(p: Path): string {
    if p == [] then "" else if |p| == 1 then p[0] else p[0] + "/" + PathText(p[1..])
  }

  function Fed(d: Digested): string {
    PathText(d.path) + [d.marker, 0 as char] + d.bytes
  }

  /** All bytes fed to the hash: the root's own entry is left out. */
  function FedAll(all: seq<Digested>): string {
    if all == [] then ""
    else FedAll(all[..|all| - 1]) + if all[|all| - 1].path == [] then "" else Fed(all[|all| - 1])
  }

  function DigestedAll(walk: seq<Entry>): seq<Digested> {
    seq(|walk|, i requires 0 <= i < |walk| => DigestedOf(walk[i]))
  }

  /** `hash_tree`: `None` is a missing payload. */
  method HashTree(walk: Option<seq<Entry>>, hash: string -> string) returns (digest: Option<string>)
    requires walk.Some? ==> DistinctPaths(walk.value)
    ensures walk.None? <==> digest.None?
    ensures walk.Some? ==> exists sorted :: SortOf(sorted, walk.value) && digest == Some(hash(FedAll(DigestedAll(sorted))))
  {
    if walk.None? { return None; }
    var entries := SortByPath(walk.value);
    var running := "";
    for i := 0 to |entries|
      invariant running == FedAll(DigestedAll(entries)[..i])
    {
      FedNext(DigestedAll(entries), i);
      if entries[i].path != [] {
        running := Feed(running, entries[i]);
      }
    }
    assert DigestedAll(entries)[..|entries|] == DigestedAll(entries);
    digest := Some(hash(running));
  }

  lemma FedNext(all: seq<Digested>, i: nat)
    requires i < |all|
    ensures FedAll(all[..i + 1]) == FedAll(all[..i]) + if all[i].path == [] then "" else Fed(all[i])
  {
    assert all[..i + 1][..i] == all[..i];
  }

  /** One entry: its path, what it is, and what it holds. */
  method Feed(running: string, e: Entry) returns (more: string)
    ensures more == running + Fed(DigestedOf(e))
  {
    hide PathText;
    more := running + PathText(e.path);
    match e.kind {
      case File(contents, _) =>
        more := more + ['f', 0 as char];
        more := more + contents;
      case Link(target) =>
        more := more + ['l', 0 as char];
        more := more + target;
      case Directory =>
        more := more + ['d', 0 as char];
    }
  }

  // ---- The archive ------------------------------------------------------

  const BASE: Word := "compute-distribution"

  /** An archive entry. Owner, group and time are always zero, so they are not written out. */
  datatype Archived = Archived(path: Path, marker: char, mode: nat, size: nat, link: string, contents: string)

  function ArchivedOf(e: Entry): Archived {
    match e.kind
    case Directory => Archived([BASE] + e.path, 'd', 0x1ED, 0, "", "")
    case Link(target) => Archived([BASE] + e.path, 'l', 0x1FF, 0, target, "")
    case File(contents, executable) =>
      Archived([BASE] + e.path, 'f', if executable then 0x1ED else 0x1A4, |contents|, "", contents)
  }

  function ArchivedAll(walk: seq<Entry>): seq<Archived> {
    seq(|walk|, i requires 0 <= i < |walk| => ArchivedOf(walk[i]))
  }

  /** `write_archive`: the root's own entry comes first. */
  method WriteArchive(walk: seq<Entry>) returns (archive: seq<Archived>)
    requires DistinctPaths(walk)
    ensures exists sorted :: SortOf(sorted, walk) && archive == ArchivedAll(sorted)
  {
    var entries := SortByPath(walk);
    archive := [];
    for i := 0 to |entries|
      invariant archive == ArchivedAll(entries)[..i]
    {
      var e := entries[i];
      var header := Archived([BASE] + e.path, 'f', 0, 0, "", "");
      match e.kind {
        case Directory =>
          header := header.(marker := 'd', mode := 0x1ED);
        case Link(target) =>
          header := header.(marker := 'l', mode := 0x1FF, link := target);
        case File(contents, executable) =>
          header := header.(mode := if executable then 0x1ED else 0x1A4);
          header := header.(size := |contents|, contents := contents);
      }
      assert header == ArchivedAll(entries)[i];
      archive := archive + [header];
    }
  }

  // ---- What the archive gives back --------------------------------------

  /** Whether the owner may execute it. */
  predicate OwnerExecutes(mode: nat) {
    mode / 64 % 2 == 1
  }

  /** Unpacking an entry: its path below the base directory, and what it is. */
  function Unpacked(a: Archived): Option<(Path, Kind)> {
    if a.path == [] || a.path[0] != BASE then None
    else
      match a.marker
      case 'd' => Some((a.path[1..], Directory))
      case 'l' => Some((a.path[1..], Link(a.link)))
      case _ => if a.size == |a.contents| then Some((a.path[1..], File(a.contents, OwnerExecutes(a.mode)))) else None
  }

  /** Whether owner, group and others may read it. */
  predicate AllRead(mode: nat) {
    mode / 256 % 2 == 1 && mode / 32 % 2 == 1 && mode / 4 % 2 == 1
  }

  /** The round trip: every entry comes out of the archive as it went in, executables executable, and all of it readable. */
  lemma ArchiveRoundTrip(e: Entry)
    ensures Unpacked(ArchivedOf(e)) == Some((e.path, e.kind))
    ensures e.kind.Directory? ==> OwnerExecutes(ArchivedOf(e).mode)
    ensures AllRead(ArchivedOf(e).mode)
  {
    assert ([BASE] + e.path)[1..] == e.path;
  }

  // ---- Every change of an entry is fed ----------------------------------

  /** What a walk lists: components that are not empty and hold no separator. */
  predicate PathFits(p: Path) {
    forall i | 0 <= i < |p| :: p[i] != "" && '/' !in p[i]
  }

  lemma CutAtSlash(a: Word, b: Word, x: string, y: string)
    requires '/' !in a && '/' !in b && a + "/" + x == b + "/" + y
    ensures a == b && x == y
  {
    FirstSlash(a, x);
    FirstSlash(b, y);
    assert |a| == |b|;
    assert (a + "/" + x)[..|a|] == a && (b + "/" + y)[..|b|] == b;
    assert (a + "/" + x)[|a| + 1..] == x && (b + "/" + y)[|b| + 1..] == y;
  }

  lemma FirstSlash(a: Word, x: string)
    requires '/' !in a
    ensures (a + "/" + x)[|a|] == '/' && forall k | 0 <= k < |a| :: (a + "/" + x)[k] != '/'
  {
  }

  lemma WordIsNoPath(a: Word, b: Word, y: string)
    requires '/' !in a
    ensures a != b + "/" + y
  {
    assert (b + "/" + y)[|b|] == '/';
  }

  /** Different paths are fed as different text, and none as the root's. */
  lemma {:induction false} TextTellsPaths(p: Path, q: Path)
    requires PathFits(p) && PathFits(q)
    ensures PathText(p) == PathText(q) <==> p == q
    decreases |p|
  {
    if PathText(p) == PathText(q) && p != [] && q != [] {
      assert p == [p[0]] + p[1..] && q == [q[0]] + q[1..];
      if |p| == 1 && |q| > 1 {
        WordIsNoPath(p[0], q[0], PathText(q[1..]));
      } else if |q| == 1 && |p| > 1 {
        WordIsNoPath(q[0], p[0], PathText(p[1..]));
      } else if |p| > 1 {
        CutAtSlash(p[0], q[0], PathText(p[1..]), PathText(q[1..]));
        TextTellsPaths(p[1..], q[1..]);
      }
    }
  }

  /** The entry of the root itself is never fed: its kind does not matter, nor whether it is listed. */
  lemma RootIsNotFed(e: Entry, rest: seq<Entry>)
    requires e.path == []
    ensures FedAll(DigestedAll([e] + rest)) == FedAll(DigestedAll(rest))
  {
    hide FedAll, Fed;
    assert DigestedAll([e] + rest) == [DigestedOf(e)] + DigestedAll(rest);
    FedSplits([DigestedOf(e)], DigestedAll(rest));
    FedRoot(DigestedOf(e));
  }

  lemma FedRoot(x: Digested)
    requires x.path == []
    ensures FedAll([x]) == ""
  {
    hide Fed;
    assert [x][..0] == [];
  }

  lemma {:induction false} FedSplits(a: seq<Digested>, b: seq<Digested>)
    ensures FedAll(a + b) == FedAll(a) + FedAll(b)
    decreases |b|
  {
    hide Fed;
    if b == [] {
      assert a + b == a;
    } else {
      var init, last := b[..|b| - 1], b[|b| - 1];
      assert (a + b)[..|a + b| - 1] == a + init && (a + b)[|a + b| - 1] == last;
      FedSplits(a, init);
    }
  }

  lemma FedTellsApart(x: Digested, y: Digested)
    requires x.path == y.path
    ensures Fed(x) == Fed(y) <==> x.marker == y.marker && x.bytes == y.bytes
  {
    hide PathText;
    var n := |PathText(x.path)|;
    if Fed(x) == Fed(y) {
      assert Fed(x)[n] == x.marker && Fed(y)[n] == y.marker;
      assert Fed(x)[n + 2..] == x.bytes && Fed(y)[n + 2..] == y.bytes;
    }
  }

  lemma ChangeIsFed(before: seq<Digested>, x: Digested, y: Digested, after: seq<Digested>)
    requires x.path == y.path && x.path != []
    ensures FedAll(before + [x] + after) == FedAll(before + [y] + after) <==> x.marker == y.marker && x.bytes == y.bytes
  {
    hide Fed;
    FedTellsApart(x, y);
    FedSplits(before + [x], after);
    FedSplits(before + [y], after);
    FedSplits(before, [x]);
    FedSplits(before, [y]);
    FedOne(x);
    FedOne(y);
    MiddleDecides(FedAll(before), Fed(x), Fed(y), FedAll(after));
  }

  /** The same contents, target or directory: an executable bit makes no difference to the digest. */
  predicate SameContents(a: Kind, b: Kind) {
    match a
    case File(contents, _) => b.File? && b.contents == contents
    case Link(_) | Directory => a == b
  }

  /** Two sorted trees that agree but at one path below the root feed the hash the same bytes exactly when what is there is the same. */
  lemma EditIsFedExactlyWhen(before: seq<Entry>, e: Entry, f: Entry, after: seq<Entry>)
    requires e.path == f.path && e.path != []
    ensures FedAll(DigestedAll(before + [e] + after)) == FedAll(DigestedAll(before + [f] + after)) <==> SameContents(e.kind, f.kind)
  {
    hide FedAll, Fed;
    assert DigestedAll(before + [e] + after) == DigestedAll(before) + [DigestedOf(e)] + DigestedAll(after);
    assert DigestedAll(before + [f] + after) == DigestedAll(before) + [DigestedOf(f)] + DigestedAll(after);
    ChangeIsFed(DigestedAll(before), DigestedOf(e), DigestedOf(f), DigestedAll(after));
  }

  lemma FedOne(x: Digested)
    requires x.path != []
    ensures FedAll([x]) == Fed(x)
  {
    hide Fed;
    assert [x][..0] == [];
    assert FedAll([x]) == FedAll([x][..0]) + Fed(x);
  }

  lemma MiddleDecides(a: string, x: string, y: string, b: string)
    ensures a + x + b == a + y + b <==> x == y
  {
    if a + x + b == a + y + b {
      assert |x| == |y|;
      assert (a + x + b)[|a|..|a| + |x|] == x && (a + y + b)[|a|..|a| + |y|] == y;
    }
  }

  // ---- Neither depends on the walk --------------------------------------

  ghost function ViewsOf<V>(walk: seq<Entry>, view: Entry -> V): set<V> {
    set e | e in walk :: view(e)
  }

  /** A view of entries keeps their paths apart. */
  ghost predicate TellsPaths<V>(view: Entry -> V) {
    forall e, f: Entry | view(e) == view(f) :: e.path == f.path
  }

  /** Two sorted walks with the same entries, as far as a view goes, agree entry by entry. */
  lemma {:induction false} SameViewsSameOrder<V>(a: seq<Entry>, b: seq<Entry>, view: Entry -> V, k: nat)
    requires TellsPaths(view) && SortedByPath(a) && SortedByPath(b)
    requires ViewsOf(a, view) == ViewsOf(b, view)
    requires k <= |a| && k <= |b| && forall i | 0 <= i < k :: view(a[i]) == view(b[i])
    ensures |a| == |b| && forall i | 0 <= i < |a| :: view(a[i]) == view(b[i])
    decreases |a| - k
  {
    hide PathLess;
    if k < |a| {
      var j := Counterpart(a, b, view, k);
      var i := Counterpart(b, a, view, k);
      if j > k {
        PathsAreOrdered(a[k].path, b[k].path);
      }
      SameViewsSameOrder(a, b, view, k + 1);
    } else if k < |b| {
      var i := Counterpart(b, a, view, k);
    }
  }

  /** An entry past the common part has its counterpart past it too. */
  lemma Counterpart<V>(a: seq<Entry>, b: seq<Entry>, view: Entry -> V, k: nat) returns (j: nat)
    requires TellsPaths(view) && SortedByPath(a) && SortedByPath(b)
    requires ViewsOf(a, view) == ViewsOf(b, view)
    requires k < |a| && k <= |b| && forall i | 0 <= i < k :: view(a[i]) == view(b[i])
    ensures k <= j < |b| && view(b[j]) == view(a[k])
  {
    hide PathLess;
    assert view(a[k]) in ViewsOf(a, view);
    var e :| e in b && view(e) == view(a[k]);
    j :| 0 <= j < |b| && b[j] == e;
    if j < k {
      PathsAreOrdered(a[j].path, a[k].path);
    }
  }

  lemma SortingKeepsViews<V>(sorted: seq<Entry>, walk: seq<Entry>, view: Entry -> V)
    requires multiset(sorted) == multiset(walk)
    ensures ViewsOf(sorted, view) == ViewsOf(walk, view)
  {
    forall e ensures e in sorted <==> e in walk {
      assert e in sorted <==> e in multiset(sorted);
    }
  }

  /**
   The digest depends only on which relative paths there are and what is at each: two walks that agree on those,
   in any order and whatever else differs, feed the hash the same bytes.
   */
  lemma DigestIgnoresTheWalk(a: seq<Entry>, b: seq<Entry>, sortedA: seq<Entry>, sortedB: seq<Entry>)
    requires SortOf(sortedA, a) && SortOf(sortedB, b)
    requires ViewsOf(a, DigestedOf) == ViewsOf(b, DigestedOf)
    ensures FedAll(DigestedAll(sortedA)) == FedAll(DigestedAll(sortedB))
  {
    hide FedAll;
    SortingKeepsViews(sortedA, a, DigestedOf);
    SortingKeepsViews(sortedB, b, DigestedOf);
    SameViewsSameOrder(sortedA, sortedB, DigestedOf, 0);
    assert DigestedAll(sortedA) == DigestedAll(sortedB);
  }

  /** The archive depends on the same and on which files are executable. */
  lemma ArchiveIgnoresTheWalk(a: seq<Entry>, b: seq<Entry>, sortedA: seq<Entry>, sortedB: seq<Entry>)
    requires SortOf(sortedA, a) && SortOf(sortedB, b)
    requires ViewsOf(a, ArchivedOf) == ViewsOf(b, ArchivedOf)
    ensures ArchivedAll(sortedA) == ArchivedAll(sortedB)
  {
    SortingKeepsViews(sortedA, a, ArchivedOf);
    SortingKeepsViews(sortedB, b, ArchivedOf);
    forall e, f: Entry | ArchivedOf(e) == ArchivedOf(f) ensures e.path == f.path {
      assert e.path == ArchivedOf(e).path[1..] && f.path == ArchivedOf(f).path[1..];
    }
    SameViewsSameOrder(sortedA, sortedB, ArchivedOf, 0);
  }

  /** The two views are all that matters: same view, same path, kind, contents, link target (and mode). */
  lemma ViewsTellEntriesApart(e: Entry, f: Entry)
    ensures DigestedOf(e) == DigestedOf(f)
            <==> && e.path == f.path
                 && (e.kind == f.kind || (e.kind.File? && f.kind.File? && e.kind.contents == f.kind.contents))
    ensures ArchivedOf(e) == ArchivedOf(f) <==> e.path == f.path && e.kind == f.kind
  {
    assert ArchivedOf(e).path[1..] == e.path && ArchivedOf(f).path[1..] == f.path;
  }

  /** Conversely, an archive determines the tree: equal archives come from walks with the same paths and kinds. */
  lemma ArchiveDeterminesTheTree(sortedA: seq<Entry>, sortedB: seq<Entry>)
    requires ArchivedAll(sortedA) == ArchivedAll(sortedB)
    ensures |sortedA| == |sortedB|
    ensures forall i | 0 <= i < |sortedA| :: sortedA[i].path == sortedB[i].path && sortedA[i].kind == sortedB[i].kind
  {
    assert |sortedA| == |ArchivedAll(sortedA)| == |ArchivedAll(sortedB)| == |sortedB|;
    forall i | 0 <= i < |sortedA| ensures sortedA[i].path == sortedB[i].path && sortedA[i].kind == sortedB[i].kind {
      assert ArchivedAll(sortedA)[i] == ArchivedOf(sortedA[i]) && ArchivedAll(sortedB)[i] == ArchivedOf(sortedB[i]);
      ViewsTellEntriesApart(sortedA[i], sortedB[i]);
    }
  }
}
