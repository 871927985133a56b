/** Process-tree termination and ancestor protection in gui.py.

    `_terminate_process_tree` lists a process and all its descendants breadth first, with no
    visited set, and kills the list in reverse.  `_current_windows_python_lineage` walks from
    the current process to the root of its ancestor chain. */
module ProcessTree {

  type Pid = int

  /** One row of the process snapshot. */
  datatype Process = Process(pid: Pid, parent: Pid)

  // ----- The process forest --------------------------------------------------------------

  /** A snapshot lists every pid once. */
  predicate UniquePids(table: seq<Process>) {
    forall i, j :: 0 <= i < j < |table| ==> table[i].pid != table[j].pid
  }

  /** `children.get(pid, [])`: in table order. */
  function Children(table: seq<Process>, pid: Pid): seq<Pid> {
    if table == [] then []
    else
      var last := table[|table| - 1];
      Children(table[..|table| - 1], pid) + (if last.parent == pid then [last.pid] else [])
  }

  /** pid descends from root by n parent links. */
  ghost predicate Descends(table: seq<Process>, root: Pid, pid: Pid, n: nat)
    decreases n
  {
    if n == 0 then pid == root
    else exists p <- table :: p.pid == pid && Descends(table, root, p.parent, n - 1)
  }

  ghost predicate IsDescendant(table: seq<Process>, root: Pid, pid: Pid) {
    exists n: nat :: Descends(table, root, pid, n)
  }

  ghost predicate LeadsTo(table: seq<Process>, x: Pid, y: Pid) {
    exists n: nat :: n > 0 && Descends(table, x, y, n)
  }

  /** The root is its own proper descendant: the only way a cycle can be reached from it. */
  ghost predicate OnCycle(table: seq<Process>, root: Pid) {
    LeadsTo(table, root, root)
  }

  lemma {:induction false} ChildrenMembers(table: seq<Process>, pid: Pid)
    ensures forall c :: c in Children(table, pid) <==> Process(c, pid) in table
  {
    if table != [] {
      var init, last := table[..|table| - 1], table[|table| - 1];
      assert table == init + [last];
      ChildrenMembers(init, pid);
      assert last == Process(last.pid, last.parent);
    }
  }

  predicate NoDuplicates(s: seq<Pid>) {
    forall i, j :: 0 <= i < j < |s| ==> s[i] != s[j]
  }

  lemma {:induction false} ChildrenDistinct(table: seq<Process>, pid: Pid)
    requires UniquePids(table)
    ensures NoDuplicates(Children(table, pid))
  {
    if table != [] {
      var init, last := table[..|table| - 1], table[|table| - 1];
      ChildrenDistinct(init, pid);
      ChildrenMembers(init, pid);
      var cs := Children(init, pid);
      forall i | 0 <= i < |cs| ensures cs[i] != last.pid {
        assert cs[i] in cs;
        assert Process(cs[i], pid) in init;
      }
    }
  }

  lemma UniqueParent(table: seq<Process>, a: Process, b: Process)
    requires UniquePids(table) && a in table && b in table && a.pid == b.pid
    ensures a == b
  {}

  lemma ChildDescends(table: seq<Process>, root: Pid, p: Pid, c: Pid, n: nat)
    requires Process(c, p) in table && Descends(table, root, p, n)
    ensures Descends(table, root, c, n + 1)
  {}

  /** The same path read from the top: the first link leaves the ancestor. */
  lemma {:induction false} FirstLink(table: seq<Process>, x: Pid, y: Pid, n: nat) returns (c: Pid)
    requires n > 0 && Descends(table, x, y, n)
    ensures Process(c, x) in table && Descends(table, c, y, n - 1)
    decreases n
  {
    var p :| p in table && p.pid == y && Descends(table, x, p.parent, n - 1);
    if n == 1 {
      c := y;
      assert p == Process(c, x);
    } else {
      c := FirstLink(table, x, p.parent, n - 1);
      assert p == Process(y, p.parent);
      ChildDescends(table, c, p.parent, y, n - 2);
    }
  }

  // ----- Breadth-first listing ---------------------------------------------------------------

  /** `all` is to_kill followed by the queue, `k` the length of to_kill. */
  ghost predicate Frontier(table: seq<Process>, root: Pid, all: seq<Pid>, k: nat) {
    && k <= |all| && all != [] && all[0] == root
    && NoDuplicates(all)
    && (forall x <- all :: IsDescendant(table, root, x))
    && (forall i, c :: 0 <= i < k && Process(c, all[i]) in table ==> c in all)
    && (forall i :: 0 < i < |all| ==> HasParentBefore(table, all, i, k))
  }

  ghost predicate HasParentBefore(table: seq<Process>, all: seq<Pid>, i: nat, k: nat)
    requires i < |all| && k <= |all|
  {
    exists j :: 0 <= j < k && j < i && Process(all[i], all[j]) in table
  }

  /** A child of the process at the head of the queue has not been met before. */
  lemma ChildIsNew(table: seq<Process>, root: Pid, all: seq<Pid>, k: nat, c: Pid)
    requires UniquePids(table) && !OnCycle(table, root)
    requires Frontier(table, root, all, k) && k < |all| && Process(c, all[k]) in table
    ensures c !in all && IsDescendant(table, root, c)
  {
    assert all[k] in all;
    var n: nat :| Descends(table, root, all[k], n);
    ChildDescends(table, root, all[k], c, n);
    forall i | 0 < i < |all| ensures all[i] != c {
      assert HasParentBefore(table, all, i, k);
      var j :| 0 <= j < k && j < i && Process(all[i], all[j]) in table;
      assert all[j] != all[k];
    }
  }

  lemma FrontierInit(table: seq<Process>, root: Pid)
    ensures Frontier(table, root, [root], 0)
  {
    assert Descends(table, root, root, 0);
  }

  lemma FrontierStep(table: seq<Process>, root: Pid, all: seq<Pid>, k: nat)
    requires UniquePids(table) && !OnCycle(table, root)
    requires Frontier(table, root, all, k) && k < |all|
    ensures Frontier(table, root, all + Children(table, all[k]), k + 1)
  {
    var x, cs, k' := all[k], Children(table, all[k]), k + 1;
    var all' := all + cs;
    ChildrenMembers(table, x);
    ChildrenDistinct(table, x);
    forall c <- cs ensures c !in all && IsDescendant(table, root, c) {
      ChildIsNew(table, root, all, k, c);
    }
    assert NoDuplicates(all') by {
      forall i, j | 0 <= i < j < |all'| ensures all'[i] != all'[j] {
        if i < |all| <= j {
          assert all'[j] in cs && all'[i] in all;
        }
      }
    }
    forall i | 0 < i < |all'| ensures HasParentBefore(table, all', i, k') {
      if i < |all| {
        assert HasParentBefore(table, all, i, k);
        var j :| 0 <= j < k && j < i && Process(all[i], all[j]) in table;
        assert all'[j] == all[j] && all'[i] == all[i];
      } else {
        assert all'[i] in cs && all'[k] == x;
      }
    }
  }

  /** Everything below the root is listed once the queue is empty. */
  lemma {:induction false} ListedAll(table: seq<Process>, root: Pid, all: seq<Pid>, y: Pid, n: nat)
    requires Frontier(table, root, all, |all|) && Descends(table, root, y, n)
    ensures y in all
    decreases n
  {
    if n > 0 {
      var p :| p in table && p.pid == y && Descends(table, root, p.parent, n - 1);
      ListedAll(table, root, all, p.parent, n - 1);
      assert p == Process(y, p.parent);
    }
  }

  lemma ParentsComeFirst(table: seq<Process>, root: Pid, all: seq<Pid>, i: nat, j: nat)
    requires UniquePids(table) && !OnCycle(table, root) && Frontier(table, root, all, |all|)
    requires i < |all| && j < |all| && Process(all[i], all[j]) in table
    ensures j < i
  {
    assert all[j] in all;
    var n: nat :| Descends(table, root, all[j], n);
    ChildDescends(table, root, all[j], all[i], n);
    assert i > 0;
    assert HasParentBefore(table, all, i, |all|);
    var m :| 0 <= m < |all| && m < i && Process(all[i], all[m]) in table;
    UniqueParent(table, Process(all[i], all[m]), Process(all[i], all[j]));
  }

  function Reversed(s: seq<Pid>): (r: seq<Pid>)
    ensures |r| == |s| && forall i :: 0 <= i < |s| ==> r[i] == s[|s| - 1 - i]
  {
    if s == [] then [] else Reversed(s[1..]) + [s[0]]
  }

  function Universe(table: seq<Process>, root: Pid): set<Pid> {
    {root} + set p <- table :: p.pid
  }

  lemma {:induction false} DistinctFits(s: seq<Pid>, u: set<Pid>)
    requires NoDuplicates(s) && forall x <- s :: x in u
    ensures |s| <= |u|
    decreases |s|
  {
    if s != [] {
      var last := |s| - 1;
      var top := s[last];
      assert top in s && top in u;
      forall x <- s[..last] ensures x in u - {top} {
        assert x in s;
      }
      DistinctFits(s[..last], u - {top});
    }
  }

  lemma DescendantInUniverse(table: seq<Process>, root: Pid, x: Pid)
    requires IsDescendant(table, root, x)
    ensures x in Universe(table, root)
  {}

  function Lookup(children: map<Pid, seq<Pid>>, pid: Pid): seq<Pid> {
    if pid in children then children[pid] else []
  }

  /** Groups the snapshot by parent. */
  method GroupByParent(table: seq<Process>) returns (children: map<Pid, seq<Pid>>)
    ensures forall pid {:trigger Lookup(children, pid)} :: Lookup(children, pid) == Children(table, pid)
  {
    children := map[];
    for i := 0 to |table|
      invariant forall pid :: Lookup(children, pid) == Children(table[..i], pid)
    {
      var p := table[i];
      assert table[..i + 1][..i] == table[..i];
      assert Lookup(children, p.parent) == Children(table[..i], p.parent);
      children := children[p.parent := Lookup(children, p.parent) + [p.pid]];
    }
    assert table[..|table|] == table;
  }

  /** The root and its descendants, breadth first. */
  method ListTree(table: seq<Process>, root: Pid) returns (toKill: seq<Pid>)
    requires UniquePids(table) && !OnCycle(table, root)
    ensures Frontier(table, root, toKill, |toKill|)
  {
    var children := GroupByParent(table);
    toKill := [];
    var queue := [root];
    FrontierInit(table, root);
    assert toKill + queue == [root];
    while queue != []
      invariant Frontier(table, root, toKill + queue, |toKill|)
      decreases |Universe(table, root)| - |toKill|
    {
      ListStep(table, root, toKill, queue);
      var pid := queue[0];
      toKill := toKill + [pid];
      queue := queue[1..] + Lookup(children, pid);
    }
    assert toKill + queue == toKill;
  }

  lemma ListStep(table: seq<Process>, root: Pid, toKill: seq<Pid>, queue: seq<Pid>)
    requires UniquePids(table) && !OnCycle(table, root)
    requires queue != [] && Frontier(table, root, toKill + queue, |toKill|)
    ensures Frontier(table, root, toKill + [queue[0]] + (queue[1..] + Children(table, queue[0])), |toKill| + 1)
    ensures |toKill| < |Universe(table, root)|
  {
    Regroup(toKill, queue, Children(table, queue[0]));
    ListFits(table, root, toKill + queue, |toKill|);
    FrontierStep(table, root, toKill + queue, |toKill|);
  }

  lemma Regroup(toKill: seq<Pid>, queue: seq<Pid>, children: seq<Pid>)
    requires queue != []
    ensures (toKill + queue)[|toKill|] == queue[0]
    ensures toKill + [queue[0]] + (queue[1..] + children) == toKill + queue + children
  {}

  /** The kill order of `_terminate_process_tree`, for every snapshot in which the root is not
      its own descendant: it holds the root and each descendant exactly once, and every
      process comes before its parent. */
  method KillOrder(table: seq<Process>, root: Pid) returns (order: seq<Pid>)
    requires UniquePids(table) && !OnCycle(table, root)
    ensures NoDuplicates(order)
    ensures forall x :: x in order <==> IsDescendant(table, root, x)
    ensures forall i, j :: 0 <= i < |order| && 0 <= j < |order| && Process(order[i], order[j]) in table ==> i < j
  {
    var toKill := ListTree(table, root);
    order := Reversed(toKill);
    KillOrderIsSafe(table, root, toKill);
  }

  lemma ListFits(table: seq<Process>, root: Pid, all: seq<Pid>, n: nat)
    requires Frontier(table, root, all, n) && n < |all|
    ensures n < |Universe(table, root)|
  {
    forall x <- all ensures x in Universe(table, root) {
      DescendantInUniverse(table, root, x);
    }
    DistinctFits(all, Universe(table, root));
  }

  lemma KillOrderIsSafe(table: seq<Process>, root: Pid, all: seq<Pid>)
    requires UniquePids(table) && !OnCycle(table, root) && Frontier(table, root, all, |all|)
    ensures var order := Reversed(all);
            && NoDuplicates(order)
            && (forall x :: x in order <==> IsDescendant(table, root, x))
            && (forall i, j :: 0 <= i < |order| && 0 <= j < |order| && Process(order[i], order[j]) in table ==> i < j)
  {
    var order := Reversed(all);
    forall x ensures x in order <==> IsDescendant(table, root, x) {
      if x in order {
        var i :| 0 <= i < |order| && order[i] == x;
        assert all[|all| - 1 - i] == x;
        assert x in all;
      }
      if IsDescendant(table, root, x) {
        var n: nat :| Descends(table, root, x, n);
        ListedAll(table, root, all, x, n);
        var i :| 0 <= i < |all| && all[i] == x;
        assert order[|all| - 1 - i] == x;
      }
    }
    forall i, j | 0 <= i < |order| && 0 <= j < |order| && Process(order[i], order[j]) in table ensures i < j {
      ParentsComeFirst(table, root, all, |all| - 1 - i, |all| - 1 - j);
    }
  }

  // ----- Exactly when the listing ends ------------------------------------------------------------

  /** The queue after n iterations of the loop. */
  function QueueAfter(table: seq<Process>, root: Pid, n: nat): seq<Pid> {
    if n == 0 then [root] else Next(table, QueueAfter(table, root, n - 1))
  }

  function Next(table: seq<Process>, queue: seq<Pid>): seq<Pid> {
    if queue == [] then [] else queue[1..] + Children(table, queue[0])
  }

  /** On a cycle through the root, a process that leads to the root has a child that does. */
  lemma NextOnCycle(table: seq<Process>, x: Pid, root: Pid) returns (c: Pid)
    requires OnCycle(table, root) && LeadsTo(table, x, root)
    ensures c in Children(table, x) && LeadsTo(table, c, root)
  {
    var m: nat :| m > 0 && Descends(table, x, root, m);
    c := FirstLink(table, x, root, m);
    ChildrenMembers(table, x);
    assert m > 1 ==> Descends(table, c, root, m - 1);
  }

  /** While the root is on a cycle, some queued process leads back to it. */
  lemma {:induction false} CycleKeepsQueue(table: seq<Process>, root: Pid, n: nat)
    requires OnCycle(table, root)
    ensures exists x <- QueueAfter(table, root, n) :: LeadsTo(table, x, root)
  {
    if n == 0 {
      assert root in QueueAfter(table, root, 0);
    } else {
      CycleKeepsQueue(table, root, n - 1);
      NextKeepsCycle(table, root, QueueAfter(table, root, n - 1));
    }
  }

  lemma NextKeepsCycle(table: seq<Process>, root: Pid, queue: seq<Pid>)
    requires OnCycle(table, root) && exists x <- queue :: LeadsTo(table, x, root)
    ensures exists x <- Next(table, queue) :: LeadsTo(table, x, root)
  {
    var x :| x in queue && LeadsTo(table, x, root);
    if x == queue[0] {
      var c := NextOnCycle(table, x, root);
      assert c in Next(table, queue);
    } else {
      assert x in queue[1..];
      assert x in Next(table, queue);
    }
  }

  /** Off a cycle the loop runs out of processes; `done` is what it has listed by iteration n. */
  lemma {:induction false} ListingEnds(table: seq<Process>, root: Pid, n: nat, done: seq<Pid>) returns (end: nat)
    requires UniquePids(table) && !OnCycle(table, root)
    requires |done| == n && Frontier(table, root, done + QueueAfter(table, root, n), n)
    ensures QueueAfter(table, root, end) == []
    decreases |Universe(table, root)| - n
  {
    var q := QueueAfter(table, root, n);
    if q == [] {
      end := n;
    } else {
      ListStep(table, root, done, q);
      end := ListingEnds(table, root, n + 1, done + [q[0]]);
    }
  }

  /** The loop, which has no visited set, ends if and only if the root is not its own descendant. */
  lemma ListingEndsIff(table: seq<Process>, root: Pid)
    requires UniquePids(table)
    ensures (exists n: nat :: QueueAfter(table, root, n) == []) <==> !OnCycle(table, root)
  {
    if OnCycle(table, root) {
      forall n: nat ensures QueueAfter(table, root, n) != [] {
        CycleKeepsQueue(table, root, n);
      }
    } else {
      FrontierInit(table, root);
      assert [] + QueueAfter(table, root, 0) == [root];
      var n := ListingEnds(table, root, 0, []);
    }
  }

  /** A process listed as its own parent is such a root: the loop lists it forever. */
  lemma SelfParentNeverEnds(pid: Pid, n: nat)
    ensures UniquePids([Process(pid, pid)]) && OnCycle([Process(pid, pid)], pid)
    ensures QueueAfter([Process(pid, pid)], pid, n) == [pid]
  {
    var table := [Process(pid, pid)];
    assert Process(pid, pid) in table && Descends(table, pid, pid, 0) && Descends(table, pid, pid, 1);
    assert table[..0] == [] && Children(table, pid) == [pid];
  }

  lemma ChildrenOfTwo(table: seq<Process>, pid: Pid)
    requires |table| == 2
    ensures Children(table, pid) ==
            (if table[0].parent == pid then [table[0].pid] else []) + (if table[1].parent == pid then [table[1].pid] else [])
  {
    assert table[..1][0] == table[0] && table[..1][..0] == [];
    assert Children(table[..1], pid) == if table[0].parent == pid then [table[0].pid] else [];
  }

  /** Likewise for two processes each listed as the other's parent, as a reused pid can make them. */
  lemma {:induction false} MutualParentsNeverEnd(root: Pid, other: Pid, n: nat)
    requires root != other
    ensures var table := [Process(root, other), Process(other, root)];
            && UniquePids(table) && OnCycle(table, root)
            && QueueAfter(table, root, n) == [if n % 2 == 0 then root else other]
  {
    var table := [Process(root, other), Process(other, root)];
    assert table[0] in table && table[1] in table && Descends(table, root, root, 0);
    ChildDescends(table, root, root, other, 0);
    ChildDescends(table, root, other, root, 1);
    ChildrenOfTwo(table, root);
    ChildrenOfTwo(table, other);
    if n > 0 {
      MutualParentsNeverEnd(root, other, n - 1);
    }
  }

  // ----- The ancestor chain of the current process -----------------------------------------------------

  /** A process entry as reported; one whose ids are not numbers is skipped. */
  datatype Row = Unreadable | Row(pid: Pid, parent: Pid)

  function ParentByPid(rows: seq<Row>): map<Pid, Pid> {
    if rows == [] then map[]
    else
      var earlier, r := ParentByPid(rows[..|rows| - 1]), rows[|rows| - 1];
      if r.Row? && r.pid > 0 then earlier[r.pid := r.parent] else earlier
  }

  function ParentOf(parents: map<Pid, Pid>, pid: Pid): Pid {
    if pid in parents then parents[pid] else 0
  }

  /** The n-th ancestor of me; 0 once the chain has ended. */
  function Ancestor(parents: map<Pid, Pid>, me: Pid, n: nat): Pid {
    if n == 0 then me
    else
      var a := Ancestor(parents, me, n - 1);
      if n > 1 && a == 0 then 0 else ParentOf(parents, a)
  }

  ghost predicate InLineage(parents: map<Pid, Pid>, me: Pid, x: Pid) {
    exists n: nat :: Ancestor(parents, me, n) == x && (n == 0 || x != 0)
  }

  lemma {:induction false} ChainCollected(parents: map<Pid, Pid>, me: Pid, lineage: set<Pid>, n: nat)
    requires me in lineage
    requires forall x <- lineage :: ParentOf(parents, x) != 0 ==> ParentOf(parents, x) in lineage
    ensures n == 0 || Ancestor(parents, me, n) != 0 ==> Ancestor(parents, me, n) in lineage
  {
    if n > 0 {
      ChainCollected(parents, me, lineage, n - 1);
    }
  }

  /** Read off the rows: pid is positive and its last readable row names this parent. */
  ghost predicate Reported(rows: seq<Row>, pid: Pid, parent: Pid) {
    pid > 0 && exists i :: 0 <= i < |rows| && rows[i] == Row(pid, parent) && LastOf(rows, i)
  }

  ghost predicate LastOf(rows: seq<Row>, i: nat)
    requires i < |rows| && rows[i].Row?
  {
    forall j :: i < j < |rows| && rows[j].Row? ==> rows[j].pid != rows[i].pid
  }

  /** x is n reported parents above me; a parent 0 is none. */
  ghost predicate Above(rows: seq<Row>, me: Pid, x: Pid, n: nat)
    decreases n
  {
    if n == 0 then x == me
    else x != 0 && exists y :: Above(rows, me, y, n - 1) && Reported(rows, y, x)
  }

  ghost predicate SelfOrAbove(rows: seq<Row>, me: Pid, x: Pid) {
    exists n: nat :: Above(rows, me, x, n)
  }

  lemma {:induction false} ParentByPidMeans(rows: seq<Row>, pid: Pid, parent: Pid)
    ensures pid in ParentByPid(rows) && ParentByPid(rows)[pid] == parent <==> Reported(rows, pid, parent)
    decreases |rows|
  {
    if rows != [] {
      var n := |rows| - 1;
      var init, r := rows[..n], rows[n];
      ParentByPidMeans(init, pid, parent);
      if r.Row? && r.pid == pid {
        if pid > 0 && r.parent == parent {
          assert LastOf(rows, n);
        }
      } else {
        if Reported(init, pid, parent) {
          var i :| 0 <= i < |init| && init[i] == Row(pid, parent) && LastOf(init, i);
          assert rows[i] == init[i] && LastOf(rows, i);
        }
        if Reported(rows, pid, parent) {
          var i :| 0 <= i < |rows| && rows[i] == Row(pid, parent) && LastOf(rows, i);
          assert init[i] == rows[i] && LastOf(init, i);
        }
      }
    }
  }

  lemma {:induction false} AboveMeans(rows: seq<Row>, me: Pid, x: Pid, n: nat)
    ensures Above(rows, me, x, n) <==> Ancestor(ParentByPid(rows), me, n) == x && (n == 0 || x != 0)
    decreases n
  {
    if n > 0 {
      var parents := ParentByPid(rows);
      var y := Ancestor(parents, me, n - 1);
      AboveMeans(rows, me, y, n - 1);
      if Above(rows, me, x, n) {
        var z :| Above(rows, me, z, n - 1) && Reported(rows, z, x);
        AboveMeans(rows, me, z, n - 1);
        ParentByPidMeans(rows, z, x);
      }
      if Ancestor(parents, me, n) == x && x != 0 {
        ParentByPidMeans(rows, y, x);
      }
    }
  }

  /** Walks up from the current process.  It ends on every table, parent cycles included, and
      collects exactly the current process and its ancestors. */
  method CurrentLineage(me: Pid, rows: seq<Row>) returns (lineage: set<Pid>)
    ensures forall x :: x in lineage <==> SelfOrAbove(rows, me, x)
  {
    var parents: map<Pid, Pid> := map[];
    for i := 0 to |rows|
      invariant parents == ParentByPid(rows[..i])
    {
      assert rows[..i + 1][..i] == rows[..i];
      if rows[i].Row? && rows[i].pid > 0 {
        parents := parents[rows[i].pid := rows[i].parent];
      }
    }
    assert rows[..|rows|] == rows;
    lineage := {me};
    var cursor := ParentOf(parents, me);
    ghost var n: nat := 1;
    assert Ancestor(parents, me, 0) == me;
    while cursor != 0 && cursor !in lineage
      invariant me in lineage && n > 0 && cursor == Ancestor(parents, me, n)
      invariant forall x <- lineage :: InLineage(parents, me, x)
      invariant forall x <- lineage :: ParentOf(parents, x) in lineage || ParentOf(parents, x) in {0, cursor}
      decreases parents.Values - lineage
    {
      assert InLineage(parents, me, cursor);
      var next := ParentOf(parents, cursor);
      assert cursor in parents.Values;
      lineage := lineage + {cursor};
      cursor := next;
      n := n + 1;
    }
    forall x | InLineage(parents, me, x) ensures x in lineage {
      var m: nat :| Ancestor(parents, me, m) == x && (m == 0 || x != 0);
      ChainCollected(parents, me, lineage, m);
    }
    LineageMeans(rows, me);
  }

  lemma LineageMeans(rows: seq<Row>, me: Pid)
    ensures forall x :: InLineage(ParentByPid(rows), me, x) <==> SelfOrAbove(rows, me, x)
  {
    forall x ensures InLineage(ParentByPid(rows), me, x) <==> SelfOrAbove(rows, me, x) {
      if InLineage(ParentByPid(rows), me, x) {
        var n: nat :| Ancestor(ParentByPid(rows), me, n) == x && (n == 0 || x != 0);
        AboveMeans(rows, me, x, n);
      }
      if SelfOrAbove(rows, me, x) {
        var n: nat :| Above(rows, me, x, n);
        AboveMeans(rows, me, x, n);
      }
    }
  }
}
