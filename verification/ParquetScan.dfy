/** The provider scan of backend/api/routes_dataset.py: an explicit-stack walk of every
    provider directory under every parquet root.

    Directories are finite trees: symbolic links are not followed, so they count as files.
    The reference is the recursive fold over the tree. */
module ParquetScan {

  datatype Entry = File(name: string, size: nat) | Dir(name: string, entries: seq<Entry>)

  predicate IsParquet(name: string) {
    EndsWith(name, ".parquet")
  }

  predicate EndsWith(s: string, suffix: string) {
    if |suffix| == 0 then true
    else |s| > 0 && s[|s| - 1] == suffix[|suffix| - 1] && EndsWith(s[..|s| - 1], suffix[..|suffix| - 1])
  }

  lemma {:induction false} EndsWithIff(s: string, suffix: string)
    ensures EndsWith(s, suffix) <==> |suffix| <= |s| && s[|s| - |suffix|..] == suffix
  {
    if |suffix| > 0 && |s| > 0 {
      var s', suffix' := s[..|s| - 1], suffix[..|suffix| - 1];
      EndsWithIff(s', suffix');
      assert suffix == suffix' + [suffix[|suffix| - 1]];
      if |suffix| <= |s| {
        assert s[|s| - |suffix|..] == s'[|s'| - |suffix'|..] + [s[|s| - 1]];
      }
    }
  }

  // ----- The recursive reference ------------------------------------------------------

  datatype Measure = Bytes | Files | Dirs

  function Weight(m: Measure, e: Entry): nat {
    match m
    case Bytes => if e.File? && IsParquet(e.name) then e.size else 0
    case Files => if e.File? && IsParquet(e.name) then 1 else 0
    case Dirs => if e.Dir? then 1 else 0
  }

  /** The recursive fold: bytes or number of the parquet files, or number of directories. */
  function Tally(m: Measure, es: seq<Entry>): nat {
    if es == [] then 0
    else Weight(m, es[0]) + (if es[0].Dir? then Tally(m, es[0].entries) else 0) + Tally(m, es[1..])
  }

  lemma {:induction false} TallyAppend(m: Measure, a: seq<Entry>, b: seq<Entry>)
    ensures Tally(m, a + b) == Tally(m, a) + Tally(m, b)
    decreases |a|
  {
    if a == [] {
      assert a + b == b;
    } else {
      assert (a + b)[1..] == a[1..] + b;
      TallyAppend(m, a[1..], b);
    }
  }

  /** What one entry adds at the end of a list, for all three measures. */
  lemma Pushed(es: seq<Entry>, e: Entry)
    ensures forall m :: Tally(m, es + [e]) == Tally(m, es) + Tally(m, [e])
  {
    forall m ensures Tally(m, es + [e]) == Tally(m, es) + Tally(m, [e]) {
      TallyAppend(m, es, [e]);
    }
  }

  lemma Single(m: Measure, e: Entry)
    ensures Tally(m, [e]) == Weight(m, e) + if e.Dir? then Tally(m, e.entries) else 0
  {}

  /** The stack loop: pops a directory, counts its parquet files, pushes its subdirectories.
      It ends on every tree and its counts are those of the recursive fold. */
  method Walk(provider: Entry) returns (bytes: nat, files: nat)
    requires provider.Dir?
    ensures bytes == Tally(Bytes, provider.entries) && files == Tally(Files, provider.entries)
  {
    bytes, files := 0, 0;
    var stack := [provider];
    Single(Bytes, provider);
    Single(Files, provider);
    while stack != []
      invariant forall d <- stack :: d.Dir?
      invariant bytes + Tally(Bytes, stack) == Tally(Bytes, provider.entries)
      invariant files + Tally(Files, stack) == Tally(Files, provider.entries)
      decreases Tally(Dirs, stack)
    {
      var d := stack[|stack| - 1];
      Popped(stack);
      bytes, files, stack := List(d.entries, bytes, files, stack[..|stack| - 1]);
    }
  }

  lemma Popped(stack: seq<Entry>)
    requires stack != [] && stack[|stack| - 1].Dir?
    ensures var d, rest := stack[|stack| - 1], stack[..|stack| - 1];
            && Tally(Bytes, stack) == Tally(Bytes, rest) + Tally(Bytes, d.entries)
            && Tally(Files, stack) == Tally(Files, rest) + Tally(Files, d.entries)
            && Tally(Dirs, stack) == Tally(Dirs, rest) + 1 + Tally(Dirs, d.entries)
  {
    var d, rest := stack[|stack| - 1], stack[..|stack| - 1];
    assert stack == rest + [d];
    Pushed(rest, d);
    Single(Bytes, d);
    Single(Files, d);
    Single(Dirs, d);
  }

  /** One directory listing: the inner loop. */
  method List(entries: seq<Entry>, bytes0: nat, files0: nat, stack0: seq<Entry>)
    returns (bytes: nat, files: nat, stack: seq<Entry>)
    requires forall d <- stack0 :: d.Dir?
    ensures forall d <- stack :: d.Dir?
    ensures bytes + Tally(Bytes, stack) == bytes0 + Tally(Bytes, stack0) + Tally(Bytes, entries)
    ensures files + Tally(Files, stack) == files0 + Tally(Files, stack0) + Tally(Files, entries)
    ensures Tally(Dirs, stack) == Tally(Dirs, stack0) + Tally(Dirs, entries)
  {
    bytes, files, stack := bytes0, files0, stack0;
    for i := 0 to |entries|
      invariant forall d <- stack :: d.Dir?
      invariant bytes + Tally(Bytes, stack) == bytes0 + Tally(Bytes, stack0) + Tally(Bytes, entries[..i])
      invariant files + Tally(Files, stack) == files0 + Tally(Files, stack0) + Tally(Files, entries[..i])
      invariant Tally(Dirs, stack) == Tally(Dirs, stack0) + Tally(Dirs, entries[..i])
    {
      var e := entries[i];
      assert entries[..i + 1] == entries[..i] + [e];
      Pushed(entries[..i], e);
      if e.Dir? {
        Pushed(stack, e);
        stack := stack + [e];
      } else {
        Single(Bytes, e);
        Single(Files, e);
        Single(Dirs, e);
        if IsParquet(e.name) {
          bytes := bytes + e.size;
          files := files + 1;
        }
      }
    }
    assert entries[..|entries|] == entries;
  }

  // ----- The fold by the files themselves ---------------------------------------------------

  /** Every file below these entries, at any depth. */
  function Leaves(es: seq<Entry>): seq<Entry> {
    if es == [] then []
    else (if es[0].Dir? then Leaves(es[0].entries) else [es[0]]) + Leaves(es[1..])
  }

  function ParquetFiles(fs: seq<Entry>): seq<Entry> {
    if fs == [] then []
    else (if |fs[0].name| >= 8 && fs[0].name[|fs[0].name| - 8..] == ".parquet" then [fs[0]] else []) + ParquetFiles(fs[1..])
  }

  function TotalSize(fs: seq<Entry>): nat {
    if fs == [] then 0 else (if fs[0].File? then fs[0].size else 0) + TotalSize(fs[1..])
  }

  lemma {:induction false} FilesConcat(a: seq<Entry>, b: seq<Entry>)
    ensures ParquetFiles(a + b) == ParquetFiles(a) + ParquetFiles(b) && TotalSize(a + b) == TotalSize(a) + TotalSize(b)
    decreases |a|
  {
    if a == [] {
      assert a + b == b;
    } else {
      assert (a + b)[1..] == a[1..] + b;
      FilesConcat(a[1..], b);
    }
  }

  /** The fold counts the files whose name ends in ".parquet", at any depth, and their sizes. */
  lemma {:induction false} TallyMeans(es: seq<Entry>)
    ensures Tally(Files, es) == |ParquetFiles(Leaves(es))| && Tally(Bytes, es) == TotalSize(ParquetFiles(Leaves(es)))
    decreases es
  {
    if es != [] {
      TallyMeans(es[1..]);
      var first := if es[0].Dir? then Leaves(es[0].entries) else [es[0]];
      FilesConcat(first, Leaves(es[1..]));
      FilesConcat(ParquetFiles(first), ParquetFiles(Leaves(es[1..])));
      if es[0].Dir? {
        TallyMeans(es[0].entries);
      } else {
        OneFile(es[0]);
      }
    }
  }

  lemma OneFile(e: Entry)
    requires e.File?
    ensures |ParquetFiles([e])| == Weight(Files, e) && TotalSize(ParquetFiles([e])) == Weight(Bytes, e)
  {
    EndsWithIff(e.name, ".parquet");
    assert [e][1..] == [] && ParquetFiles([]) == [];
  }

  // ----- All roots -----------------------------------------------------------------------

  /** A root that exists lists its entries in sorted order; a missing one is skipped. */
  datatype Root = Missing | Present(entries: seq<Entry>)

  datatype Provider = Provider(name: string, bytes: nat, files: nat)

  /** Every entry of every existing root, in the order the loops visit them. */
  function Visited(roots: seq<Root>): seq<Entry> {
    if roots == [] then []
    else
      var root := roots[|roots| - 1];
      Visited(roots[..|roots| - 1]) + (if root.Present? then root.entries else [])
  }

  /** The roots are visited in order, a missing one gives nothing. */
  lemma {:induction false} VisitedMeans(a: seq<Root>, b: seq<Root>, entries: seq<Entry>)
    ensures Visited(a + b) == Visited(a) + Visited(b)
    ensures Visited([Present(entries)]) == entries && Visited([Missing]) == []
    decreases |b|
  {
    assert [Present(entries)][..0] == [] && [Missing][..0] == [];
    if b == [] {
      assert a + b == a;
    } else {
      var n := |b| - 1;
      assert (a + b)[..|a + b| - 1] == a + b[..n];
      VisitedMeans(a, b[..n], entries);
    }
  }

  function ProviderOf(e: Entry): Provider
    requires e.Dir?
  {
    Provider(e.name, Tally(Bytes, e.entries), Tally(Files, e.entries))
  }

  function Names(ps: seq<Provider>): set<string> {
    set p <- ps :: p.name
  }

  /** p reports the first visited directory of its name. */
  ghost predicate FromFirst(p: Provider, es: seq<Entry>) {
    exists i :: 0 <= i < |es| && es[i].Dir? && p == ProviderOf(es[i]) && FirstOfName(es, i)
  }

  ghost predicate FirstOfName(es: seq<Entry>, i: nat)
    requires i < |es|
  {
    forall j :: 0 <= j < i ==> !(es[j].Dir? && es[j].name == es[i].name)
  }

  predicate DistinctNames(ps: seq<Provider>) {
    forall i, j :: 0 <= i < j < |ps| ==> ps[i].name != ps[j].name
  }

  /** One report per directory name, each from the first directory that has it. */
  ghost predicate Reports(ps: seq<Provider>, es: seq<Entry>) {
    && DistinctNames(ps)
    && (forall p <- ps :: FromFirst(p, es))
    && (forall e <- es :: e.Dir? ==> e.name in Names(ps))
  }

  function TotalBytes(ps: seq<Provider>): nat {
    if ps == [] then 0 else TotalBytes(ps[..|ps| - 1]) + ps[|ps| - 1].bytes
  }

  lemma TotalPlus(ps: seq<Provider>, p: Provider)
    ensures TotalBytes(ps + [p]) == TotalBytes(ps) + p.bytes
  {}

  lemma ReportsStep(ps: seq<Provider>, es: seq<Entry>, e: Entry)
    requires Reports(ps, es)
    ensures !e.Dir? || e.name in Names(ps) ==> Reports(ps, es + [e])
    ensures e.Dir? && e.name !in Names(ps) ==> Reports(ps + [ProviderOf(e)], es + [e])
  {
    forall p <- ps ensures FromFirst(p, es + [e]) {
      var i :| 0 <= i < |es| && es[i].Dir? && p == ProviderOf(es[i]) && FirstOfName(es, i);
      assert (es + [e])[i] == es[i] && FirstOfName(es + [e], i);
    }
    if e.Dir? && e.name !in Names(ps) {
      var all := es + [e];
      assert all[|es|] == e && FirstOfName(all, |es|);
      var p := ProviderOf(e);
      assert p in ps + [p];
      forall d <- all | d.Dir? ensures d.name in Names(ps + [p]) {
        if d != e {
          var q :| q in ps && q.name == d.name;
          assert q in ps + [p];
        }
      }
    }
  }

  predicate Descending(ps: seq<Provider>) {
    forall i, j :: 0 <= i < j < |ps| ==> ps[i].bytes >= ps[j].bytes
  }

  /** Python's stable sort on size, largest first, as repeated insertion. */
  function SortDescending(ps: seq<Provider>): seq<Provider> {
    if ps == [] then [] else Insert(SortDescending(ps[..|ps| - 1]), ps[|ps| - 1])
  }

  function Insert(ps: seq<Provider>, p: Provider): seq<Provider> {
    if ps == [] || ps[|ps| - 1].bytes >= p.bytes then ps + [p]
    else Insert(ps[..|ps| - 1], p) + [ps[|ps| - 1]]
  }

  lemma {:induction false} InsertPermutes(ps: seq<Provider>, p: Provider)
    ensures multiset(Insert(ps, p)) == multiset(ps) + multiset{p}
  {
    if ps != [] && ps[|ps| - 1].bytes < p.bytes {
      var init, last := ps[..|ps| - 1], ps[|ps| - 1];
      assert ps == init + [last];
      InsertPermutes(init, p);
    }
  }

  lemma {:induction false} InsertSorts(ps: seq<Provider>, p: Provider)
    requires Descending(ps)
    ensures Descending(Insert(ps, p))
  {
    if ps != [] && ps[|ps| - 1].bytes < p.bytes {
      var init, last := ps[..|ps| - 1], ps[|ps| - 1];
      InsertSorts(init, p);
      InsertKeeps(init, p);
      var r := Insert(init, p);
      forall q <- r ensures q.bytes >= last.bytes {
        assert q in init || q == p;
      }
      DescendingPlus(r, last);
    }
  }

  lemma DescendingPlus(ps: seq<Provider>, p: Provider)
    requires Descending(ps) && forall q <- ps :: q.bytes >= p.bytes
    ensures Descending(ps + [p])
  {}

  lemma {:induction false} SortPermutes(ps: seq<Provider>)
    ensures multiset(SortDescending(ps)) == multiset(ps)
  {
    if ps != [] {
      var init, last := ps[..|ps| - 1], ps[|ps| - 1];
      assert ps == init + [last];
      SortPermutes(init);
      InsertPermutes(SortDescending(init), last);
    }
  }

  lemma {:induction false} SortSorts(ps: seq<Provider>)
    ensures Descending(SortDescending(ps))
  {
    if ps != [] {
      SortSorts(ps[..|ps| - 1]);
      InsertSorts(SortDescending(ps[..|ps| - 1]), ps[|ps| - 1]);
    }
  }

  /** Sorting only reorders: providers of one size keep the order they were found in. */
  lemma {:induction false} SortIsStable(ps: seq<Provider>, size: nat)
    ensures OfSize(SortDescending(ps), size) == OfSize(ps, size)
  {
    if ps != [] {
      SortIsStable(ps[..|ps| - 1], size);
      SortSorts(ps[..|ps| - 1]);
      InsertIsStable(SortDescending(ps[..|ps| - 1]), ps[|ps| - 1], size);
    }
  }

  function OfSize(ps: seq<Provider>, size: nat): seq<Provider> {
    if ps == [] then []
    else OfSize(ps[..|ps| - 1], size) + (if ps[|ps| - 1].bytes == size then [ps[|ps| - 1]] else [])
  }

  lemma {:induction false} InsertIsStable(ps: seq<Provider>, p: Provider, size: nat)
    requires Descending(ps)
    ensures OfSize(Insert(ps, p), size) == OfSize(ps, size) + (if p.bytes == size then [p] else [])
  {
    if ps == [] || ps[|ps| - 1].bytes >= p.bytes {
      assert (ps + [p])[..|ps|] == ps;
    } else {
      var init, last := ps[..|ps| - 1], ps[|ps| - 1];
      InsertIsStable(init, p, size);
      var r := Insert(init, p);
      assert (r + [last])[..|r|] == r;
      var mine := if p.bytes == size then [p] else [];
      var its := if last.bytes == size then [last] else [];
      assert mine == [] || its == [];
      assert OfSize(init, size) + mine + its == OfSize(init, size) + its + mine;
    }
  }

  lemma {:induction false} InsertKeeps(ps: seq<Provider>, p: Provider)
    ensures forall q :: q in Insert(ps, p) <==> q in ps || q == p
    ensures TotalBytes(Insert(ps, p)) == TotalBytes(ps) + p.bytes
  {
    if ps == [] || ps[|ps| - 1].bytes >= p.bytes {
      TotalPlus(ps, p);
    } else {
      var init, last := ps[..|ps| - 1], ps[|ps| - 1];
      assert ps == init + [last];
      InsertKeeps(init, p);
      TotalPlus(Insert(init, p), last);
    }
  }

  lemma {:induction false} InsertDistinct(ps: seq<Provider>, p: Provider)
    requires DistinctNames(ps) && forall q <- ps :: q.name != p.name
    ensures DistinctNames(Insert(ps, p))
  {
    if ps != [] && ps[|ps| - 1].bytes < p.bytes {
      var init, last := ps[..|ps| - 1], ps[|ps| - 1];
      InsertDistinct(init, p);
      InsertKeeps(init, p);
      var r := Insert(init, p);
      forall i | 0 <= i < |r| ensures r[i].name != last.name {
        assert r[i] in r;
      }
    }
  }

  lemma {:induction false} SortKeeps(ps: seq<Provider>)
    ensures forall q :: q in SortDescending(ps) <==> q in ps
    ensures TotalBytes(SortDescending(ps)) == TotalBytes(ps)
  {
    if ps != [] {
      var init, last := ps[..|ps| - 1], ps[|ps| - 1];
      assert ps == init + [last];
      SortKeeps(init);
      InsertKeeps(SortDescending(init), last);
    }
  }

  lemma {:induction false} SortDistinct(ps: seq<Provider>)
    requires DistinctNames(ps)
    ensures DistinctNames(SortDescending(ps))
  {
    if ps != [] {
      var init, last := ps[..|ps| - 1], ps[|ps| - 1];
      SortDistinct(init);
      SortKeeps(init);
      InsertDistinct(SortDescending(init), last);
    }
  }

  lemma SortReports(ps: seq<Provider>, es: seq<Entry>)
    requires Reports(ps, es)
    ensures Reports(SortDescending(ps), es)
  {
    SortKeeps(ps);
    SortDistinct(ps);
    assert Names(SortDescending(ps)) == Names(ps);
  }

  lemma NamesPlus(ps: seq<Provider>, p: Provider)
    ensures Names(ps + [p]) == Names(ps) + {p.name}
  {}

  /** The providers of one root that no earlier root had. */
  method ScanRoot(entries: seq<Entry>, found0: seq<Provider>, seen0: set<string>, total0: nat, ghost visited: seq<Entry>)
    returns (found: seq<Provider>, seen: set<string>, total: nat)
    requires Reports(found0, visited) && seen0 == Names(found0) && total0 == TotalBytes(found0)
    ensures Reports(found, visited + entries) && seen == Names(found) && total == TotalBytes(found)
  {
    found, seen, total := found0, seen0, total0;
    assert visited + entries[..0] == visited;
    for i := 0 to |entries|
      invariant Reports(found, visited + entries[..i]) && seen == Names(found) && total == TotalBytes(found)
    {
      var e := entries[i];
      ReportsStep(found, visited + entries[..i], e);
      assert visited + entries[..i + 1] == visited + entries[..i] + [e];
      if e.Dir? && e.name !in seen {
        seen := seen + {e.name};
        var bytes, files := Walk(e);
        total := total + bytes;
        var p := Provider(e.name, bytes, files);
        TotalPlus(found, p);
        NamesPlus(found, p);
        found := found + [p];
      }
    }
    assert entries[..|entries|] == entries;
  }

  /** The whole scan: one report per directory name, taken from the first root that has it,
      sizes by the recursive fold, the total over exactly those reports, largest first. */
  method ScanProviders(roots: seq<Root>) returns (providers: seq<Provider>, total: nat)
    ensures Reports(providers, Visited(roots))
    ensures total == TotalBytes(providers)
    ensures Descending(providers)
  {
    var found: seq<Provider> := [];
    var seen: set<string> := {};
    total := 0;
    for r := 0 to |roots|
      invariant Reports(found, Visited(roots[..r])) && seen == Names(found) && total == TotalBytes(found)
    {
      assert roots[..r + 1][..r] == roots[..r];
      assert Visited(roots[..r]) + [] == Visited(roots[..r]);
      if roots[r].Present? {
        found, seen, total := ScanRoot(roots[r].entries, found, seen, total, Visited(roots[..r]));
      }
    }
    assert roots[..|roots|] == roots;
    SortReports(found, Visited(roots));
    SortKeeps(found);
    SortSorts(found);
    providers := SortDescending(found);
  }
}
