/**
 The audit's walk over a process snapshot: `descendants` lists the processes below one process with
 an explicit stack, and does not mark what it has visited.
 */
module ProcessTree {

  /** One line of the snapshot. */
  datatype Line = Line(child: int, parent: int)

  function ChildrenOf(lines: seq<Line>, pid: int): seq<int> {
    if lines == [] then []
    else ChildrenOf(lines[..|lines| - 1], pid)
         + if lines[|lines| - 1].parent == pid then [lines[|lines| - 1].child] else []
  }

  /** Every process is listed once, so it has one parent. */
  ghost predicate OneParentEach(lines: seq<Line>) {
    forall i, j | 0 <= i < j < |lines| :: lines[i].child != lines[j].child
  }

  ghost predicate Distinct(s: seq<int>) {
    forall i, j | 0 <= i < j < |s| :: s[i] != s[j]
  }

  /** Each process of the path is the parent of the next. */
  ghost predicate Path(lines: seq<Line>, path: seq<int>) {
    forall i | 0 <= i < |path| - 1 :: Line(path[i + 1], path[i]) in lines
  }

  ghost predicate Leads(lines: seq<Line>, path: seq<int>, from: int, to: int) {
    |path| >= 2 && path[0] == from && path[|path| - 1] == to && Path(lines, path)
  }

  /** A child, a child of a child, and so on. */
  ghost predicate Descends(lines: seq<Line>, from: int, to: int) {
    exists path :: Leads(lines, path, from, to)
  }

  lemma {:induction false} ChildrenAreLines(lines: seq<Line>, pid: int, child: int)
    ensures child in ChildrenOf(lines, pid) <==> Line(child, pid) in lines
    decreases |lines|
  {
    if lines != [] {
      var init, last := lines[..|lines| - 1], lines[|lines| - 1];
      ChildrenAreLines(init, pid, child);
      assert lines == init + [last];
    }
  }

  lemma {:induction false} ChildrenAreDistinct(lines: seq<Line>, pid: int)
    requires OneParentEach(lines)
    ensures Distinct(ChildrenOf(lines, pid))
    decreases |lines|
  {
    if lines != [] {
      var init, last := lines[..|lines| - 1], lines[|lines| - 1];
      ChildrenAreDistinct(init, pid);
      ChildrenAreLines(init, pid, last.child);
      assert forall i | 0 <= i < |init| :: init[i] == lines[i];
    }
  }

  lemma OneParent(lines: seq<Line>, child: int, a: int, b: int)
    requires OneParentEach(lines) && Line(child, a) in lines && Line(child, b) in lines
    ensures a == b
  {
    var i :| 0 <= i < |lines| && lines[i] == Line(child, a);
    var j :| 0 <= j < |lines| && lines[j] == Line(child, b);
  }

  lemma DescendsFurther(lines: seq<Line>, from: int, pid: int, child: int)
    requires Line(child, pid) in lines
    requires from == pid || Descends(lines, from, pid)
    ensures Descends(lines, from, child)
  {
    if from == pid {
      assert Leads(lines, [pid, child], from, child);
    } else {
      var path :| Leads(lines, path, from, pid);
      assert Leads(lines, path + [child], from, child);
    }
  }

  // ---- The walk ---------------------------------------------------------

  /** The stack still to look at, and the processes listed so far. */
  datatype Walk = Walk(stack: seq<int>, found: seq<int>)

  function Look(lines: seq<Line>, w: Walk): Walk
    requires w.stack != []
  {
    var children := ChildrenOf(lines, w.stack[|w.stack| - 1]);
    Walk(w.stack[..|w.stack| - 1] + children, w.found + children)
  }

  /** The walk after at most `n` looks; an empty stack is the end. */
  function After(lines: seq<Line>, w: Walk, n: nat): Walk
    decreases n
  {
    if n == 0 || w.stack == [] then w else After(lines, Look(lines, w), n - 1)
  }

  ghost predicate Stops(lines: seq<Line>, pid: int) {
    exists n: nat :: After(lines, Walk([pid], []), n).stack == []
  }

  /** Everything found is on the stack or was looked at, once, and its parent was looked at. */
  ghost predicate WalkInv(lines: seq<Line>, pid: int, looked: set<int>, w: Walk) {
    Separate(pid, looked, w) && Closed(lines, pid, looked, w)
  }

  ghost predicate Separate(pid: int, looked: set<int>, w: Walk) {
    && Distinct(w.stack) && Distinct(w.found)
    && (forall x | x in w.stack :: x !in looked)
    && (forall x :: x in w.stack || x in looked <==> x == pid || x in w.found)
  }

  ghost predicate Closed(lines: seq<Line>, pid: int, looked: set<int>, w: Walk) {
    && (forall x | x in w.found :: Descends(lines, pid, x) && exists p :: p in looked && Line(x, p) in lines)
    && (forall p, c | p in looked && Line(c, p) in lines :: c in w.found)
  }

  /** How many processes have a parent that was not looked at yet. */
  function Unseen(lines: seq<Line>, looked: set<int>): nat {
    if lines == [] then 0
    else Unseen(lines[..|lines| - 1], looked) + if lines[|lines| - 1].parent in looked then 0 else 1
  }

  lemma {:induction false} LookingSees(lines: seq<Line>, looked: set<int>, pid: int)
    requires pid !in looked
    ensures Unseen(lines, looked) == Unseen(lines, looked + {pid}) + |ChildrenOf(lines, pid)|
    decreases |lines|
  {
    if lines != [] {
      LookingSees(lines[..|lines| - 1], looked, pid);
    }
  }

  lemma NewChildrenAreNew(lines: seq<Line>, pid: int, looked: set<int>, w: Walk, child: int)
    requires OneParentEach(lines) && !Descends(lines, pid, pid) && WalkInv(lines, pid, looked, w) && w.stack != []
    requires child in ChildrenOf(lines, w.stack[|w.stack| - 1])
    ensures child !in w.found && child != pid && Descends(lines, pid, child)
    ensures Line(child, w.stack[|w.stack| - 1]) in lines
  {
    var top := w.stack[|w.stack| - 1];
    ChildrenAreLines(lines, top, child);
    assert top in w.stack;
    DescendsFurther(lines, pid, top, child);
    if child in w.found {
      var p :| p in looked && Line(child, p) in lines;
      OneParent(lines, child, p, top);
    }
  }

  lemma DistinctAppends(a: seq<int>, b: seq<int>)
    requires Distinct(a) && Distinct(b) && forall x | x in b :: x !in a
    ensures Distinct(a + b)
  {
    var s := a + b;
    forall i, j | 0 <= i < j < |s| ensures s[i] != s[j] {
      if i < |a| <= j {
        assert s[i] in a && s[j] in b;
      }
    }
  }

  lemma StaysSeparate(pid: int, looked: set<int>, w: Walk, children: seq<int>)
    requires Separate(pid, looked, w) && w.stack != [] && Distinct(children)
    requires forall x | x in children :: x !in w.found && x != pid
    ensures var top, rest := w.stack[|w.stack| - 1], w.stack[..|w.stack| - 1];
            Separate(pid, looked + {top}, Walk(rest + children, w.found + children))
  {
    var top, rest := w.stack[|w.stack| - 1], w.stack[..|w.stack| - 1];
    assert w.stack == rest + [top];
    assert forall x | x in rest :: x in w.stack && x != top;
    DistinctAppends(rest, children);
    DistinctAppends(w.found, children);
  }

  lemma StaysClosed(lines: seq<Line>, pid: int, looked: set<int>, w: Walk)
    requires Closed(lines, pid, looked, w) && w.stack != []
    requires forall x | x in ChildrenOf(lines, w.stack[|w.stack| - 1]) :: Descends(lines, pid, x)
    ensures Closed(lines, pid, looked + {w.stack[|w.stack| - 1]}, Look(lines, w))
  {
    hide Descends;
    var top := w.stack[|w.stack| - 1];
    var after, seen := Look(lines, w), looked + {top};
    forall x | x in after.found
      ensures Descends(lines, pid, x) && exists p :: p in seen && Line(x, p) in lines
    {
      if x in w.found {
        var p :| p in looked && Line(x, p) in lines;
        assert p in seen;
      } else {
        ChildrenAreLines(lines, top, x);
        assert top in seen && Line(x, top) in lines;
      }
    }
    forall p, c | p in seen && Line(c, p) in lines ensures c in after.found {
      if p == top { ChildrenAreLines(lines, top, c); }
    }
  }

  lemma LookKeepsInvariant(lines: seq<Line>, pid: int, looked: set<int>, w: Walk)
    requires OneParentEach(lines) && !Descends(lines, pid, pid) && WalkInv(lines, pid, looked, w) && w.stack != []
    ensures WalkInv(lines, pid, looked + {w.stack[|w.stack| - 1]}, Look(lines, w))
    ensures Unseen(lines, looked + {w.stack[|w.stack| - 1]}) + |Look(lines, w).stack| < Unseen(lines, looked) + |w.stack|
  {
    var top := w.stack[|w.stack| - 1];
    assert top !in looked by { assert top in w.stack; }
    LookingSees(lines, looked, top);
    ChildrenAreDistinct(lines, top);
    forall child | child in ChildrenOf(lines, top)
      ensures child !in w.found && child != pid && Descends(lines, pid, child)
    {
      NewChildrenAreNew(lines, pid, looked, w, child);
    }
    hide Separate, Closed, Descends, OneParentEach;
    StaysSeparate(pid, looked, w, ChildrenOf(lines, top));
    StaysClosed(lines, pid, looked, w);
  }

  /** Once the stack is empty, what was found is closed under children, so it is all descendants. */
  lemma {:induction false} FoundIsEverything(lines: seq<Line>, pid: int, looked: set<int>, w: Walk, path: seq<int>, i: nat)
    requires WalkInv(lines, pid, looked, w) && w.stack == []
    requires Path(lines, path) && i < |path| && path[0] == pid
    ensures i > 0 ==> path[i] in w.found
    decreases i
  {
    if i > 0 {
      FoundIsEverything(lines, pid, looked, w, path, i - 1);
      assert Line(path[i], path[i - 1]) in lines;
      assert path[i - 1] in looked;
    }
  }

  /** The dictionary from a process to its children, in the order of the snapshot. */
  method IndexChildren(lines: seq<Line>) returns (children: map<int, seq<int>>)
    ensures forall p :: Listed(children, p) == ChildrenOf(lines, p)
  {
    children := map[];
    for i := 0 to |lines|
      invariant forall p :: Listed(children, p) == ChildrenOf(lines[..i], p)
    {
      var line := lines[i];
      children := children[line.parent := Listed(children, line.parent) + [line.child]];
      assert lines[..i + 1][..i] == lines[..i];
    }
    assert lines[..|lines|] == lines;
  }

  function Listed(children: map<int, seq<int>>, p: int): seq<int> {
    if p in children then children[p] else []
  }

  /** The inner loop: every child is listed and pushed. */
  method Visit(stack: seq<int>, found: seq<int>, children: seq<int>) returns (stack': seq<int>, found': seq<int>)
    ensures stack' == stack + children && found' == found + children
  {
    stack', found' := stack, found;
    for i := 0 to |children|
      invariant stack' == stack + children[..i] && found' == found + children[..i]
    {
      found' := found' + [children[i]];
      stack' := stack' + [children[i]];
    }
    assert children[..|children|] == children;
  }

  /** `descendants` of a process that is not its own: every proper descendant once, and nothing else. */
  method Descendants(pid: int, lines: seq<Line>) returns (found: seq<int>)
    requires OneParentEach(lines) && !Descends(lines, pid, pid)
    ensures Distinct(found)
    ensures forall x :: x in found <==> Descends(lines, pid, x)
  {
    hide OneParentEach, Descends;
    var children := IndexChildren(lines);
    var stack := [pid];
    found := [];
    ghost var looked: set<int> := {};
    while stack != []
      invariant WalkInv(lines, pid, looked, Walk(stack, found))
      decreases Unseen(lines, looked) + |stack|
    {
      hide WalkInv;
      LookKeepsInvariant(lines, pid, looked, Walk(stack, found));
      looked := looked + {stack[|stack| - 1]};
      stack, found := Visit(stack[..|stack| - 1], found, Listed(children, stack[|stack| - 1]));
    }
    forall x | Descends(lines, pid, x) ensures x in found {
      AllIsFound(lines, pid, looked, Walk(stack, found), x);
    }
  }

  lemma AllIsFound(lines: seq<Line>, pid: int, looked: set<int>, w: Walk, x: int)
    requires WalkInv(lines, pid, looked, w) && w.stack == [] && Descends(lines, pid, x)
    ensures x in w.found
  {
    var path :| Leads(lines, path, pid, x);
    FoundIsEverything(lines, pid, looked, w, path, |path| - 1);
  }

  // ---- When the walk stops ----------------------------------------------

  lemma {:induction false} TreeWalkStops(lines: seq<Line>, pid: int, looked: set<int>, w: Walk) returns (n: nat)
    requires OneParentEach(lines) && !Descends(lines, pid, pid) && WalkInv(lines, pid, looked, w)
    ensures After(lines, w, n).stack == []
    decreases Unseen(lines, looked) + |w.stack|
  {
    hide WalkInv, Descends, OneParentEach, Look;
    if w.stack == [] {
      n := 0;
    } else {
      LookKeepsInvariant(lines, pid, looked, w);
      var m := TreeWalkStops(lines, pid, looked + {w.stack[|w.stack| - 1]}, Look(lines, w));
      n := m + 1;
    }
  }

  lemma LookKeeps(lines: seq<Line>, w: Walk, x: int)
    requires w.stack != [] && x in w.stack && x != w.stack[|w.stack| - 1]
    ensures x in Look(lines, w).stack
  {
    assert w.stack == w.stack[..|w.stack| - 1] + [w.stack[|w.stack| - 1]];
  }

  lemma LookPushes(lines: seq<Line>, w: Walk, x: int)
    requires w.stack != [] && Line(x, w.stack[|w.stack| - 1]) in lines
    ensures x in Look(lines, w).stack
  {
    ChildrenAreLines(lines, w.stack[|w.stack| - 1], x);
  }

  lemma NextInCycle(lines: seq<Line>, pid: int, cycle: seq<int>, x: int) returns (next: int)
    requires Leads(lines, cycle, pid, pid) && x in cycle
    ensures next in cycle && Line(next, x) in lines
  {
    var i :| 0 <= i < |cycle| && cycle[i] == x;
    var k := if i == |cycle| - 1 then 0 else i;
    next := cycle[k + 1];
  }

  /** A cycle through `pid` always keeps one of its processes on the stack. */
  lemma {:induction false} CycleNeverStops(lines: seq<Line>, pid: int, cycle: seq<int>, w: Walk, n: nat)
    requires Leads(lines, cycle, pid, pid)
    requires exists x :: x in cycle && x in w.stack
    ensures After(lines, w, n).stack != []
    decreases n
  {
    hide Look, Leads;
    if n > 0 {
      var x :| x in cycle && x in w.stack;
      if x == w.stack[|w.stack| - 1] {
        var next := NextInCycle(lines, pid, cycle, x);
        LookPushes(lines, w, next);
      } else {
        LookKeeps(lines, w, x);
      }
      CycleNeverStops(lines, pid, cycle, Look(lines, w), n - 1);
    }
  }

  /** A snapshot on which it does not stop: two processes, each listed as the other's parent. */
  lemma ParentsOfEachOther(p: int, q: int)
    requires p != q
    ensures OneParentEach([Line(p, q), Line(q, p)]) && !Stops([Line(p, q), Line(q, p)], p)
  {
    var lines := [Line(p, q), Line(q, p)];
    var cycle := [p, q, p];
    assert lines[0] == Line(p, q) && lines[1] == Line(q, p);
    assert Leads(lines, cycle, p, p);
    StopsExactlyWhen(lines, p);
  }

  /** With one parent each, the walk stops exactly when the process is not its own descendant. */
  lemma StopsExactlyWhen(lines: seq<Line>, pid: int)
    requires OneParentEach(lines)
    ensures Stops(lines, pid) <==> !Descends(lines, pid, pid)
  {
    if Descends(lines, pid, pid) {
      var cycle :| Leads(lines, cycle, pid, pid);
      forall n: nat ensures After(lines, Walk([pid], []), n).stack != [] {
        assert pid in cycle && pid in Walk([pid], []).stack;
        CycleNeverStops(lines, pid, cycle, Walk([pid], []), n);
      }
    } else {
      var n := TreeWalkStops(lines, pid, {}, Walk([pid], []));
    }
  }
}
