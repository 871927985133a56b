/** The launcher's log buffer and its incrementally maintained, filtered view (gui.py).

    Threads enqueue entries into a bounded buffer; the user interface flushes it in batches into
    a bounded list of entries and a bounded display, and rebuilds the display when the filter
    changes.
    Entries are single lines. */
module LogView {
  import opened Options

  datatype Bucket = Frontend | System | Workers | Backend

  datatype Level = Debug | Info | Warning | Error | Other

  /** A log entry with its source bucket; `folded` is the lower-cased text that searches see. */
  datatype Entry = Entry(text: string, folded: string, source: Bucket, level: Level, worker: string)

  /** A displayed line with its colour tag. */
  datatype Line = Line(text: string, tag: Level)

  datatype WorkerFilter = AnyWorker | NoWorker | Only(name: string)

  datatype Filter = Filter(source: Option<Bucket>, level: Option<Level>, worker: WorkerFilter, search: string)

  const MAX_LINES: nat := 5000
  const TRIM_BATCH: nat := 1000

  /** The buffer is a deque of this length: when it is full, its oldest entry makes room. */
  const BUFFER_MAX: nat := 2000

  function Rank(l: Level): nat {
    match l
    case Debug => 0
    case Info => 1
    case Warning => 2
    case Error => 3
    case Other => 1
  }

  /** The least rank a level filter lets through; a filter that is no level lets all through. */
  function MinRank(l: Level): nat { if l.Other? then 0 else Rank(l) }

  predicate Contains(text: string, word: string) {
    word <= text || (text != "" && Contains(text[1..], word))
  }

  /** Python's substring test: the word stands somewhere in the text. */
  lemma {:induction false} ContainsIff(text: string, word: string)
    ensures Contains(text, word) <==> exists i :: 0 <= i <= |text| && word <= text[i..]
  {
    if text != "" {
      ContainsIff(text[1..], word);
      assert text[0..] == text;
      forall i | 0 < i <= |text| ensures text[i..] == text[1..][i - 1..] {
      }
      if Contains(text[1..], word) {
        var i :| 0 <= i <= |text[1..]| && word <= text[1..][i..];
        assert word <= text[i + 1..];
      }
    } else {
      assert text[0..] == text;
    }
  }

  /** `_matches_filter`. */
  predicate Matches(f: Filter, e: Entry) {
    && (f.source.Some? ==> e.source == f.source.value)
    && (f.level.Some? ==> Rank(e.level) >= MinRank(f.level.value))
    && (f.worker.NoWorker? ==> e.worker == "")
    && (f.worker.Only? ==> e.worker == f.worker.name)
    && Contains(e.folded, f.search)
  }

  function LineOf(e: Entry): Line {
    Line(e.text, if e.level.Other? then Info else e.level)
  }

  /** Recomputing the view: the lines of the entries that match. */
  function Shown(f: Filter, es: seq<Entry>): seq<Line> {
    ShownOf(f, es, |es|)
  }

  function ShownOf(f: Filter, es: seq<Entry>, n: nat): seq<Line>
    requires n <= |es|
  {
    if n == 0 then []
    else ShownOf(f, es, n - 1) + (if Matches(f, es[n - 1]) then [LineOf(es[n - 1])] else [])
  }

  // ----- What the filters show ------------------------------------------------------------------

  /** Among the entries that pass the other filters: DEBUG shows all, INFO all but debug
      entries, WARNING warnings and errors, ERROR errors; entries of other levels pass as INFO. */
  lemma LevelMeans(f: Filter, e: Entry)
    ensures var others := Matches(f.(level := None), e);
            && (Matches(f.(level := Some(Debug)), e) <==> others)
            && (Matches(f.(level := Some(Info)), e) <==> others && !e.level.Debug?)
            && (Matches(f.(level := Some(Warning)), e) <==> others && (e.level.Warning? || e.level.Error?))
            && (Matches(f.(level := Some(Error)), e) <==> others && e.level.Error?)
            && (Matches(f.(level := Some(Other)), e) <==> others)
  {}

  /** A source filter shows exactly its source; the worker filter "none" exactly the entries
      without a worker, a named one exactly that worker's; the search exactly the entries with
      the word in them. */
  lemma FiltersMean(f: Filter, e: Entry)
    ensures f.source.Some? ==> (Matches(f, e) <==> Matches(f.(source := None), e) && e.source == f.source.value)
    ensures f.worker.NoWorker? ==> (Matches(f, e) <==> Matches(f.(worker := AnyWorker), e) && e.worker == "")
    ensures f.worker.Only? ==> (Matches(f, e) <==> Matches(f.(worker := AnyWorker), e) && e.worker == f.worker.name)
    ensures Matches(f, e) <==> Matches(f.(search := ""), e) && exists i :: 0 <= i <= |e.folded| && f.search <= e.folded[i..]
    ensures Matches(Filter(None, None, AnyWorker, ""), e)
  {
    ContainsIff(e.folded, f.search);
  }

  /** A line is the entry's text in the colour of its level, or of INFO when the level is none of
      the four. */
  lemma LineMeans(e: Entry)
    ensures LineOf(e).text == e.text
    ensures LineOf(e).tag == match e.level
                             case Error => Error
                             case Warning => Warning
                             case Debug => Debug
                             case Info => Info
                             case Other => Info
  {}

  predicate Subsequence(a: seq<Line>, b: seq<Line>) {
    a == [] || (b != [] &&
      (Subsequence(a, b[..|b| - 1]) ||
       (a[|a| - 1] == b[|b| - 1] && Subsequence(a[..|a| - 1], b[..|b| - 1]))))
  }

  /** f shows nothing that wide does not show. */
  ghost predicate Narrower(f: Filter, wide: Filter) {
    forall e :: Matches(f, e) ==> Matches(wide, e)
  }

  lemma NarrowerFilters(f: Filter)
    ensures Narrower(f, f.(source := None)) && Narrower(f, f.(level := None))
    ensures Narrower(f, f.(worker := AnyWorker)) && Narrower(f, f.(search := ""))
    ensures Narrower(f.(level := Some(Error)), f.(level := Some(Warning)))
    ensures Narrower(f.(level := Some(Warning)), f.(level := Some(Info)))
    ensures Narrower(f.(level := Some(Info)), f.(level := Some(Debug)))
  {}

  lemma {:induction false} ShownNarrows(f: Filter, wide: Filter, es: seq<Entry>, n: nat)
    requires Narrower(f, wide) && n <= |es|
    ensures Subsequence(ShownOf(f, es, n), ShownOf(wide, es, n))
  {
    if n > 0 {
      ShownNarrows(f, wide, es, n - 1);
      var a, b, e := ShownOf(f, es, n - 1), ShownOf(wide, es, n - 1), es[n - 1];
      if Matches(f, e) {
        assert Matches(wide, e);
        assert (a + [LineOf(e)])[..|a|] == a && (b + [LineOf(e)])[..|b|] == b;
      } else {
        assert ShownOf(f, es, n) == a + [] == a;
        assert Matches(wide, e) ==> (b + [LineOf(e)])[..|b|] == b;
        assert !Matches(wide, e) ==> ShownOf(wide, es, n) == b + [] == b;
      }
    }
  }

  /** Narrowing the filter only removes lines and moves none. */
  lemma NarrowingRemoves(f: Filter, wide: Filter, es: seq<Entry>)
    requires Narrower(f, wide)
    ensures Subsequence(Shown(f, es), Shown(wide, es))
  {
    ShownNarrows(f, wide, es, |es|);
  }

  /** `log[-n:]` for 0 < n. */
  function Last<T>(s: seq<T>, n: nat): seq<T> {
    if |s| <= n then s else s[|s| - n..]
  }

  function Min(a: nat, b: nat): nat { if a <= b then a else b }

  predicate Suffix<T(==)>(s: seq<T>, t: seq<T>) {
    |s| <= |t| && s == t[|t| - |s|..]
  }

  // ----- Pure form of the log ---------------------------------------------------------------

  /** `history` is everything flushed since the last clear; the program does not keep it. */
  datatype Log = Log(buffer: seq<Entry>, entries: seq<Entry>, view: seq<Line>, history: seq<Entry>)

  datatype Event =
    | Enqueue(entry: Entry)
    | Flush
    | SetFilter(filter: Filter)
    | Clear

  const EMPTY := Log([], [], [], [])

  function TrimEntries(es: seq<Entry>): seq<Entry> {
    if |es| > MAX_LINES then Last(es, MAX_LINES - TRIM_BATCH) else es
  }

  /** The text widget counts one line more than it shows.  Past the maximum it deletes from
      line 1 up to, not including, line (count - maximum + batch). */
  function TrimView(v: seq<Line>): seq<Line> {
    var count := |v| + 1;
    if count > MAX_LINES then v[count - MAX_LINES + TRIM_BATCH - 1..] else v
  }

  function FlushLog(f: Filter, g: Log): Log {
    if g.buffer == [] then g
    else
      var matching := Shown(f, g.buffer);
      Log([], TrimEntries(g.entries + g.buffer),
          if matching == [] then g.view else TrimView(g.view + matching),
          g.history + g.buffer)
  }

  function Step(f: Filter, g: Log, e: Event): (Filter, Log) {
    match e
    case Enqueue(x) => (f, g.(buffer := Last(g.buffer + [x], BUFFER_MAX)))
    case Flush => (f, FlushLog(f, g))
    case SetFilter(f') => (f', g.(view := Shown(f', g.entries)))
    case Clear => (f, Log(g.buffer, [], [], []))
  }

  function Run(f: Filter, g: Log, es: seq<Event>): (Filter, Log)
    decreases |es|
  {
    if es == [] then (f, g)
    else
      var (f', g') := Step(f, g, es[0]);
      Run(f', g', es[1..])
  }

  // ----- What holds in every reachable state ---------------------------------------------------

  /** Entries and view are recent parts of the history and of the filtered history.  The view
      has all of its last 4000 lines that the retained entries could give. */
  ghost predicate Faithful(f: Filter, g: Log) {
    EntriesOk(g.entries, g.history) && ViewOk(g.view, Shown(f, g.entries), Shown(f, g.history))
  }

  ghost predicate EntriesOk(entries: seq<Entry>, history: seq<Entry>) {
    Suffix(entries, history) && Min(MAX_LINES - TRIM_BATCH, |history|) <= |entries| <= MAX_LINES
  }

  ghost predicate ViewOk(view: seq<Line>, rebuilt: seq<Line>, all: seq<Line>) {
    Suffix(view, all) && Min(MAX_LINES - TRIM_BATCH, |rebuilt|) <= |view| <= MAX_LINES
  }

  lemma {:induction false} ShownConcat(f: Filter, a: seq<Entry>, b: seq<Entry>)
    ensures Shown(f, a + b) == Shown(f, a) + Shown(f, b)
    ensures |Shown(f, b)| <= |b|
  {
    ShownOnly(f, a, a + b, |a|);
    ShownRest(f, a, b, |b|);
  }

  lemma {:induction false} ShownOnly(f: Filter, a: seq<Entry>, c: seq<Entry>, n: nat)
    requires n <= |a| && a <= c
    ensures ShownOf(f, c, n) == ShownOf(f, a, n)
  {
    if n > 0 {
      ShownOnly(f, a, c, n - 1);
    }
  }

  lemma {:induction false} ShownRest(f: Filter, a: seq<Entry>, b: seq<Entry>, n: nat)
    requires n <= |b|
    ensures ShownOf(f, a + b, |a| + n) == ShownOf(f, a + b, |a|) + ShownOf(f, b, n)
    ensures |ShownOf(f, b, n)| <= n
  {
    if n > 0 {
      ShownRest(f, a, b, n - 1);
    }
  }

  lemma ShownSuffix(f: Filter, s: seq<Entry>, t: seq<Entry>)
    requires Suffix(s, t)
    ensures Suffix(Shown(f, s), Shown(f, t)) && |Shown(f, s)| <= |s|
  {
    assert t == t[..|t| - |s|] + s;
    ShownConcat(f, t[..|t| - |s|], s);
  }

  lemma SuffixAppend<T>(s: seq<T>, t: seq<T>, u: seq<T>)
    requires Suffix(s, t)
    ensures Suffix(s + u, t + u)
  {}

  lemma SuffixTrans<T>(s: seq<T>, t: seq<T>, u: seq<T>)
    requires Suffix(s, t) && Suffix(t, u)
    ensures Suffix(s, u)
  {}

  lemma EmptyFaithful(f: Filter)
    ensures Faithful(f, EMPTY)
  {}

  lemma EntriesGrow(entries: seq<Entry>, history: seq<Entry>, batch: seq<Entry>)
    requires EntriesOk(entries, history)
    ensures var kept := TrimEntries(entries + batch);
            EntriesOk(kept, history + batch) && Suffix(kept, entries + batch)
  {
    SuffixAppend(entries, history, batch);
    SuffixTrans(TrimEntries(entries + batch), entries + batch, history + batch);
  }

  lemma ViewGrows(view: seq<Line>, rebuilt: seq<Line>, all: seq<Line>, matching: seq<Line>, rebuilt': seq<Line>)
    requires ViewOk(view, rebuilt, all) && |rebuilt'| <= |rebuilt| + |matching|
    ensures matching == [] ==> ViewOk(view, rebuilt', all + matching)
    ensures ViewOk(TrimView(view + matching), rebuilt', all + matching)
  {
    SuffixAppend(view, all, matching);
    SuffixTrans(TrimView(view + matching), view + matching, all + matching);
    assert matching == [] ==> all + matching == all;
  }

  lemma FlushFaithful(f: Filter, g: Log)
    requires Faithful(f, g)
    ensures Faithful(f, FlushLog(f, g))
  {
    if g.buffer != [] {
      var matching, kept := Shown(f, g.buffer), TrimEntries(g.entries + g.buffer);
      EntriesGrow(g.entries, g.history, g.buffer);
      ShownConcat(f, g.history, g.buffer);
      ShownConcat(f, g.entries, g.buffer);
      ShownSuffix(f, kept, g.entries + g.buffer);
      ViewGrows(g.view, Shown(f, g.entries), Shown(f, g.history), matching, Shown(f, kept));
    }
  }

  lemma {:induction false} StepFaithful(f: Filter, g: Log, e: Event)
    requires Faithful(f, g)
    ensures var (f', g') := Step(f, g, e); Faithful(f', g')
  {
    match e
    case Enqueue(_) =>
    case Flush => FlushFaithful(f, g);
    case SetFilter(f') => RebuildFaithful(f', g);
    case Clear => ClearFaithful(f, g);
  }

  lemma RebuildFaithful(f: Filter, g: Log)
    requires EntriesOk(g.entries, g.history)
    ensures Faithful(f, g.(view := Shown(f, g.entries)))
  {
    ShownSuffix(f, g.entries, g.history);
  }

  lemma ClearFaithful(f: Filter, g: Log)
    ensures Faithful(f, Log(g.buffer, [], [], []))
  {
    EmptyFaithful(f);
  }

  /** Over every sequence of enqueues, flushes, filter changes and clears, the display is a
      suffix of the filtered history and the entries are a suffix of the history. */
  lemma {:induction false} EveryRunIsFaithful(f: Filter, g: Log, es: seq<Event>)
    requires Faithful(f, g)
    ensures Faithful(Run(f, g, es).0, Run(f, g, es).1)
    decreases |es|
  {
    if es != [] {
      StepFaithful(f, g, es[0]);
      EveryRunIsFaithful(Step(f, g, es[0]).0, Step(f, g, es[0]).1, es[1..]);
    }
  }

  lemma EveryLogIsFaithful(f: Filter, es: seq<Event>)
    ensures var (f', g) := Run(f, EMPTY, es); Faithful(f', g)
  {
    EmptyFaithful(f);
    EveryRunIsFaithful(f, EMPTY, es);
  }

  // ----- When the display is what a rebuild would show ------------------------------------------

  predicate Agrees(f: Filter, g: Log) { g.view == Shown(f, g.entries) }

  /** In every reachable state display and rebuild differ at most in how far back they reach:
      the last 4000 lines are the same. */
  lemma RebuildAgrees(f: Filter, g: Log)
    requires Faithful(f, g)
    ensures var rebuilt := Shown(f, g.entries);
            && (rebuilt == g.view <==> |rebuilt| == |g.view|)
            && Last(rebuilt, MAX_LINES - TRIM_BATCH) == Last(g.view, Min(MAX_LINES - TRIM_BATCH, |rebuilt|))
  {
    ShownSuffix(f, g.entries, g.history);
    SuffixesAgree(Shown(f, g.entries), g.view, Shown(f, g.history), MAX_LINES - TRIM_BATCH);
  }

  lemma SuffixesAgree<T>(a: seq<T>, b: seq<T>, all: seq<T>, n: nat)
    requires Suffix(a, all) && Suffix(b, all) && Min(n, |a|) <= |b|
    ensures a == b <==> |a| == |b|
    ensures Last(a, n) == Last(b, Min(n, |a|))
  {
    var m := Min(n, |a|);
    assert Last(a, n) == all[|all| - m..] == Last(b, m);
  }

  /** The number of lines shown is the number of matching entries. */
  lemma {:induction false} ShownCount(f: Filter, es: seq<Entry>, n: nat)
    requires n <= |es|
    ensures |ShownOf(f, es, n)| <= n
    ensures |ShownOf(f, es, n)| == n <==> forall i :: 0 <= i < n ==> Matches(f, es[i])
    ensures ShownOf(f, es, n) == [] <==> forall i :: 0 <= i < n ==> !Matches(f, es[i])
  {
    if n > 0 {
      ShownCount(f, es, n - 1);
    }
  }

  predicate AllMatch(f: Filter, es: seq<Entry>) { forall i :: 0 <= i < |es| ==> Matches(f, es[i]) }

  predicate NoneMatch(f: Filter, es: seq<Entry>) { forall i :: 0 <= i < |es| ==> !Matches(f, es[i]) }

  /** The entries a flush throws away. */
  function Dropped(es: seq<Entry>): seq<Entry> {
    es[..|es| - |TrimEntries(es)|]
  }

  /** A flush that trims the display keeps it in agreement only if it leaves exactly 4000
      entries and all of them match; any other flush, only if it throws no matching entry away. */
  predicate FlushSurvives(f: Filter, entries: seq<Entry>, batch: seq<Entry>) {
    var all := entries + batch;
    if TrimsView(f, entries, batch)
    then |TrimEntries(all)| == MAX_LINES - TRIM_BATCH && AllMatch(f, TrimEntries(all))
    else NoneMatch(f, Dropped(all))
  }

  lemma FlushLengths(f: Filter, entries: seq<Entry>, batch: seq<Entry>)
    ensures var all, kept := entries + batch, TrimEntries(entries + batch);
            && |Shown(f, all)| == |Shown(f, entries)| + |Shown(f, batch)| == |Shown(f, Dropped(all))| + |Shown(f, kept)|
            && |Shown(f, all)| <= |all|
  {
    var all := entries + batch;
    ShownConcat(f, entries, batch);
    assert all == Dropped(all) + TrimEntries(all);
    ShownConcat(f, Dropped(all), TrimEntries(all));
    ShownCount(f, all, |all|);
  }

  /** From a display in agreement, a flush keeps the agreement if and only if it survives. */
  lemma FlushAgreesIff(f: Filter, g: Log)
    requires Faithful(f, g) && Agrees(f, g) && g.buffer != []
    ensures Agrees(f, FlushLog(f, g)) <==> FlushSurvives(f, g.entries, g.buffer)
  {
    FlushFaithful(f, g);
    RebuildAgrees(f, FlushLog(f, g));
    ViewLength(f, g);
    SurvivesByCount(f, g.entries, g.buffer);
  }

  predicate TrimsView(f: Filter, entries: seq<Entry>, batch: seq<Entry>) {
    !NoneMatch(f, batch) && |Shown(f, entries + batch)| >= MAX_LINES
  }

  lemma ViewLength(f: Filter, g: Log)
    requires Agrees(f, g) && g.buffer != []
    ensures |FlushLog(f, g).view| ==
            if TrimsView(f, g.entries, g.buffer) then MAX_LINES - TRIM_BATCH else |Shown(f, g.entries + g.buffer)|
  {
    FlushLengths(f, g.entries, g.buffer);
    ShownCount(f, g.buffer, |g.buffer|);
  }

  lemma SurvivesByCount(f: Filter, entries: seq<Entry>, batch: seq<Entry>)
    ensures FlushSurvives(f, entries, batch) <==>
            |Shown(f, TrimEntries(entries + batch))| ==
            if TrimsView(f, entries, batch) then MAX_LINES - TRIM_BATCH else |Shown(f, entries + batch)|
  {
    var all := entries + batch;
    var kept := TrimEntries(all);
    FlushLengths(f, entries, batch);
    ShownCount(f, kept, |kept|);
    ShownCount(f, Dropped(all), |Dropped(all)|);
  }

  /** Every state of the run shows what a rebuild would. */
  predicate AgreesThroughout(f: Filter, g: Log, es: seq<Event>)
    decreases |es|
  {
    Agrees(f, g) && (es != [] ==> var (f', g') := Step(f, g, es[0]); AgreesThroughout(f', g', es[1..]))
  }

  predicate FlushesSurvive(f: Filter, g: Log, es: seq<Event>)
    decreases |es|
  {
    es != [] ==>
      && (es[0].Flush? && g.buffer != [] ==> FlushSurvives(f, g.entries, g.buffer))
      && var (f', g') := Step(f, g, es[0]); FlushesSurvive(f', g', es[1..])
  }

  /** A run keeps the display equal to a rebuild throughout if and only if each of its flushes
      survives; enqueues, filter changes and clears never break the agreement. */
  lemma {:induction false} RunAgreesIff(f: Filter, g: Log, es: seq<Event>)
    requires Faithful(f, g) && Agrees(f, g)
    ensures AgreesThroughout(f, g, es) <==> FlushesSurvive(f, g, es)
    decreases |es|
  {
    if es != [] {
      var (f', g') := Step(f, g, es[0]);
      StepAgreesIff(f, g, es[0]);
      StepFaithful(f, g, es[0]);
      if Agrees(f', g') {
        RunAgreesIff(f', g', es[1..]);
      }
    }
  }

  lemma {:induction false} StepAgreesIff(f: Filter, g: Log, e: Event)
    requires Faithful(f, g) && Agrees(f, g)
    ensures var (f', g') := Step(f, g, e);
            Agrees(f', g') <==> (e.Flush? && g.buffer != [] ==> FlushSurvives(f, g.entries, g.buffer))
  {
    if e.Flush? && g.buffer != [] {
      FlushAgreesIff(f, g);
    }
  }

  // ----- Runs that break the agreement ----------------------------------------------------------

  /** The entries arrive one after the other and are then flushed. */
  function Burst(batch: seq<Entry>): seq<Event> {
    Enqueues(batch) + [Flush]
  }

  function Enqueues(batch: seq<Entry>): seq<Event> {
    seq(|batch|, i requires 0 <= i < |batch| => Enqueue(batch[i]))
  }

  lemma {:induction false} RunConcat(f: Filter, g: Log, a: seq<Event>, b: seq<Event>)
    ensures Run(f, g, a + b) == var (f', g') := Run(f, g, a); Run(f', g', b)
    decreases |a|
  {
    if a == [] {
      assert a + b == b;
    } else {
      assert (a + b)[1..] == a[1..] + b;
      RunConcat(Step(f, g, a[0]).0, Step(f, g, a[0]).1, a[1..], b);
    }
  }

  lemma {:induction false} RunEnqueues(f: Filter, g: Log, batch: seq<Entry>)
    requires |g.buffer| + |batch| <= BUFFER_MAX
    ensures Run(f, g, Enqueues(batch)) == (f, g.(buffer := g.buffer + batch))
    decreases |batch|
  {
    if batch == [] {
      assert g.buffer + batch == g.buffer;
    } else {
      assert Enqueues(batch)[1..] == Enqueues(batch[1..]);
      assert g.buffer + [batch[0]] + batch[1..] == g.buffer + batch;
      RunEnqueues(f, Step(f, g, Enqueue(batch[0])).1, batch[1..]);
    }
  }

  lemma RunBurst(f: Filter, g: Log, batch: seq<Entry>)
    requires g.buffer == [] && |batch| <= BUFFER_MAX
    ensures Run(f, g, Burst(batch)) == (f, FlushLog(f, g.(buffer := batch)))
  {
    RunConcat(f, g, Enqueues(batch), [Flush]);
    RunEnqueues(f, g, batch);
    assert [] + batch == batch;
    var h := g.(buffer := batch);
    assert Run(f, h, [Flush]) == Run(f, FlushLog(f, h), []);
  }

  /** The log after these entries were flushed and before anything was trimmed. */
  function Untrimmed(f: Filter, es: seq<Entry>): Log { Log([], es, Shown(f, es), es) }

  lemma QuietBurst(f: Filter, es: seq<Entry>, batch: seq<Entry>)
    requires 0 < |batch| <= BUFFER_MAX && |es| + |batch| < MAX_LINES
    ensures Run(f, Untrimmed(f, es), Burst(batch)) == (f, Untrimmed(f, es + batch))
  {
    RunBurst(f, Untrimmed(f, es), batch);
    QuietFlush(f, es, batch);
  }

  lemma QuietFlush(f: Filter, es: seq<Entry>, batch: seq<Entry>)
    requires batch != [] && |es| + |batch| < MAX_LINES
    ensures FlushLog(f, Untrimmed(f, es).(buffer := batch)) == Untrimmed(f, es + batch)
  {
    var lines, matching := Shown(f, es), Shown(f, batch);
    ShownConcat(f, es, batch);
    ShownCount(f, es, |es|);
    assert lines + [] == lines;
  }

  /** Three bursts, the first two of 2000 entries. */
  function ThreeBursts(all: seq<Entry>): seq<Event>
    requires |all| >= 4000
  {
    Burst(all[..2000]) + Burst(all[2000..4000]) + Burst(all[4000..])
  }

  lemma RunThreeBursts(f: Filter, all: seq<Entry>)
    requires 4000 < |all| <= 6000
    ensures Run(f, EMPTY, ThreeBursts(all)) == (f, FlushLog(f, Untrimmed(f, all[..4000]).(buffer := all[4000..])))
  {
    var a, b, c := all[..2000], all[2000..4000], all[4000..];
    RunConcat(f, EMPTY, Burst(a) + Burst(b), Burst(c));
    RunConcat(f, EMPTY, Burst(a), Burst(b));
    assert EMPTY == Untrimmed(f, []) && [] + a == a && a + b == all[..4000];
    QuietBurst(f, [], a);
    QuietBurst(f, a, b);
    RunBurst(f, Untrimmed(f, all[..4000]), c);
  }

  /** 5000 matching entries in three bursts leave 4000 lines on display, and a rebuild with the
      same filter brings the other 1000 back. */
  lemma FlushAndRebuildDiffer(f: Filter, all: seq<Entry>)
    requires |all| == 5000 && AllMatch(f, all)
    ensures var g := Run(f, EMPTY, ThreeBursts(all)).1;
            g.view == Last(Shown(f, all), 4000) && g.entries == all && |Shown(f, g.entries)| == 5000 && |g.view| == 4000
  {
    RunThreeBursts(f, all);
    assert all[..4000] + all[4000..] == all;
    ShownConcat(f, all[..4000], all[4000..]);
    ShownCount(f, all, 5000);
    ShownCount(f, all[4000..], 1000);
  }

  /** A matching entry followed by 5999 others in three bursts leaves a line on display whose
      entry is gone, and a rebuild with the same filter shows nothing. */
  lemma FlushKeepsDroppedLine(f: Filter, hit: Entry, others: seq<Entry>)
    requires Matches(f, hit) && |others| == 5999 && NoneMatch(f, others)
    ensures var g := Run(f, EMPTY, ThreeBursts([hit] + others)).1;
            g.view == [LineOf(hit)] && Shown(f, g.entries) == []
  {
    var all := [hit] + others;
    RunThreeBursts(f, all);
    assert all[..4000] + all[4000..] == all && all[..4000] == [hit] + others[..3999];
    assert TrimEntries(all) == others[1999..] && all[4000..] == others[3999..];
    OneHit(f, hit, others[..3999]);
    ShownCount(f, others[3999..], 2000);
    ShownCount(f, others[1999..], 4000);
  }

  lemma OneHit(f: Filter, hit: Entry, others: seq<Entry>)
    requires Matches(f, hit) && NoneMatch(f, others)
    ensures Shown(f, [hit] + others) == [LineOf(hit)]
  {
    ShownConcat(f, [hit], others);
    ShownCount(f, others, |others|);
    assert ShownOf(f, [hit], 0) == [] && Shown(f, [hit]) == [LineOf(hit)];
  }

  // ----- What the buffer loses ----------------------------------------------------------------------

  /** The entries that arrived since the last flush. */
  function Pending(es: seq<Event>): seq<Entry> {
    if es == [] then []
    else
      var init := es[..|es| - 1];
      match es[|es| - 1]
      case Enqueue(x) => Pending(init) + [x]
      case Flush => []
      case _ => Pending(init)
  }

  /** The entries that arrived before a flush and after the last clear of the view. */
  function Sent(es: seq<Event>): seq<Entry> {
    if es == [] then []
    else
      var init := es[..|es| - 1];
      match es[|es| - 1]
      case Flush => Sent(init) + Pending(init)
      case Clear => []
      case _ => Sent(init)
  }

  /** No flush since the last clear found more than 2000 arrivals. */
  predicate NoBurst(es: seq<Event>) {
    es == [] ||
      var init := es[..|es| - 1];
      match es[|es| - 1]
      case Flush => NoBurst(init) && |Pending(init)| <= BUFFER_MAX
      case Clear => true
      case _ => NoBurst(init)
  }

  lemma RunLast(f: Filter, g: Log, es: seq<Event>)
    requires es != []
    ensures var (f', g') := Run(f, g, es[..|es| - 1]);
            Run(f, g, es) == Step(f', g', es[|es| - 1])
  {
    var init, e := es[..|es| - 1], es[|es| - 1];
    assert es == init + [e];
    RunConcat(f, g, init, [e]);
    var (f', g') := Run(f, g, init);
    var (f'', g'') := Step(f', g', e);
    assert Run(f'', g'', []) == (f'', g'');
  }

  lemma LastAppend(s: seq<Entry>, x: Entry)
    ensures Last(Last(s, BUFFER_MAX) + [x], BUFFER_MAX) == Last(s + [x], BUFFER_MAX)
  {}

  /** In every run the buffer holds the last 2000 arrivals since the last flush. */
  lemma {:induction false} BufferIsRecent(f: Filter, es: seq<Event>)
    ensures Run(f, EMPTY, es).1.buffer == Last(Pending(es), BUFFER_MAX)
    decreases |es|
  {
    if es != [] {
      var init := es[..|es| - 1];
      RunLast(f, EMPTY, es);
      BufferIsRecent(f, init);
      if es[|es| - 1].Enqueue? {
        LastAppend(Pending(init), es[|es| - 1].entry);
      }
    }
  }

  /** In every run, everything that was sent to the view since the last clear reached it, in
      order, if and only if no burst of more than 2000 entries came between two flushes. */
  lemma {:induction false} NothingLostIff(f: Filter, es: seq<Event>)
    ensures var history := Run(f, EMPTY, es).1.history;
            && (history == Sent(es) <==> NoBurst(es))
            && |history| <= |Sent(es)| && (|history| == |Sent(es)| ==> NoBurst(es))
    decreases |es|
  {
    if es != [] {
      var init := es[..|es| - 1];
      RunLast(f, EMPTY, es);
      NothingLostIff(f, init);
      BufferIsRecent(f, init);
      if es[|es| - 1].Flush? {
        FlushedHistory(Run(f, EMPTY, init).0, Run(f, EMPTY, init).1);
      }
    }
  }

  lemma {:induction false} PendingEnqueues(batch: seq<Entry>)
    ensures Pending(Enqueues(batch)) == batch && Sent(Enqueues(batch)) == []
    decreases |batch|
  {
    if batch != [] {
      var n := |batch| - 1;
      assert Enqueues(batch)[..n] == Enqueues(batch[..n]);
      PendingEnqueues(batch[..n]);
    }
  }

  /** A burst of more than 2000 entries reaches the view without its oldest ones. */
  lemma BurstLosesOldest(f: Filter, batch: seq<Entry>)
    requires |batch| > 2000
    ensures Run(f, EMPTY, Burst(batch)).1.history == batch[|batch| - 2000..]
  {
    var arrivals := Enqueues(batch);
    assert Burst(batch)[..|batch|] == arrivals;
    RunLast(f, EMPTY, Burst(batch));
    PendingEnqueues(batch);
    BufferIsRecent(f, arrivals);
    NothingLostIff(f, arrivals);
    FlushedHistory(Run(f, EMPTY, arrivals).0, Run(f, EMPTY, arrivals).1);
  }

  lemma FlushedHistory(f: Filter, g: Log)
    ensures FlushLog(f, g).history == g.history + g.buffer
  {
    assert g.history + [] == g.history;
  }

  // ----- The launcher's fields ----------------------------------------------------------------------

  /** Each method takes the step of the pure log that bears its name, so everything proved of
      `Run` holds of every sequence of calls; the line counter always equals the display. */
  class LogPanel {
    var logBuf: seq<Entry>
    var logEntries: seq<Entry>
    var logText: seq<Line>
    var logLineCount: int
    var filter: Filter
    ghost var history: seq<Entry>

    ghost function View(): Log
      reads this
    {
      Log(logBuf, logEntries, logText, history)
    }

    ghost predicate Valid()
      reads this
    {
      logLineCount == |logText| && |logBuf| <= BUFFER_MAX
    }

    constructor (filter: Filter)
      ensures Valid() && View() == EMPTY && this.filter == filter
    {
      this.filter := filter;
      logBuf, logEntries, logText, logLineCount, history := [], [], [], 0, [];
    }

    method EnqueueLog(e: Entry)
      requires Valid()
      modifies `logBuf
      ensures Valid() && View() == Step(filter, old(View()), Enqueue(e)).1
    {
      if |logBuf| == BUFFER_MAX {
        logBuf := logBuf[1..];
      }
      logBuf := logBuf + [e];
    }

    method Matching(es: seq<Entry>) returns (lines: seq<Line>)
      ensures lines == Shown(filter, es)
    {
      lines := [];
      for i := 0 to |es|
        invariant lines == ShownOf(filter, es, i)
      {
        if Matches(filter, es[i]) {
          lines := lines + [LineOf(es[i])];
        }
      }
    }

    method AppendEntries(batch: seq<Entry>)
      modifies `logEntries, `history
      ensures logEntries == TrimEntries(old(logEntries) + batch) && history == old(history) + batch
    {
      logEntries := logEntries + batch;
      if |logEntries| > MAX_LINES {
        logEntries := logEntries[|logEntries| - (MAX_LINES - TRIM_BATCH)..];
      }
      history := history + batch;
    }

    method AppendLines(matching: seq<Line>)
      modifies `logText, `logLineCount
      ensures logText == TrimView(old(logText) + matching) && logLineCount == |logText|
    {
      logText := logText + matching;
      var lineCount := |logText| + 1;
      if lineCount > MAX_LINES {
        logText := logText[lineCount - MAX_LINES + TRIM_BATCH - 1..];
      }
      logLineCount := |logText| + 1 - 1;
    }

    method FlushLogBuffer()
      requires Valid()
      modifies `logBuf, `logEntries, `logText, `logLineCount, `history
      ensures Valid() && View() == Step(filter, old(View()), Flush).1
    {
      if logBuf == [] {
        return;
      }
      var batch := logBuf;
      logBuf := [];
      AppendEntries(batch);
      var matching := Matching(batch);
      if matching != [] {
        AppendLines(matching);
      }
    }

    method RebuildLogView()
      requires Valid()
      modifies `logText, `logLineCount
      ensures Valid() && logText == Shown(filter, logEntries)
    {
      var matching := Matching(logEntries);
      logText := matching;
      logLineCount := |matching|;
    }

    method ChangeFilter(f: Filter)
      requires Valid()
      modifies `filter, `logText, `logLineCount
      ensures Valid() && (filter, View()) == Step(old(filter), old(View()), SetFilter(f))
    {
      filter := f;
      RebuildLogView();
    }

    method ClearLogs()
      requires Valid()
      modifies `logEntries, `logText, `logLineCount, `history
      ensures Valid() && View() == Step(filter, old(View()), Clear).1
    {
      logEntries := [];
      logText := [];
      logLineCount := 0;
      history := [];
    }
  }
}
