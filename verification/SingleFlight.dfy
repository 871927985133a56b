/** The TTL-cached, single-flight storage summary of backend/api/routes_dataset.py.

    Any number of callers run `_parquet_storage_summary_cached` on one event loop.  Between
    two awaits a caller runs undisturbed, so a call is at most three atomic steps: the check
    on entry, the re-check once the lock is held, and the publication when the scan ends.
    A run is any sequence of such steps with the clock moving in between; a step that is not
    enabled does nothing, so every interleaving is a sequence of events. */
module SingleFlight {
  import opened Options

  const TTL: real := 600.0

  /** What a scan returned; a scan that raised is published as the empty summary. */
  datatype Summary = Summary(providers: seq<string>, totalBytes: nat)

  const EMPTY_SUMMARY := Summary([], 0)

  /** A published summary, when it was published, and the caller that scanned it. */
  datatype Published = Published(summary: Summary, at: real, scanner: Caller)

  datatype Answer =
    | FromCache(entry: Published, checkedAt: real)
    | FromOwnScan(entry: Published)

  datatype Phase =
    | Waiting
    | Scanning(since: real)
    | Returned(answer: Answer)

  type Caller = nat

  /** `starts` and `log` are the history: when each scan began and what each one published. */
  datatype State = State(
    now: real,
    cache: Option<Published>,
    holder: Option<Caller>,
    phases: map<Caller, Phase>,
    starts: seq<real>,
    log: seq<Published>)

  datatype Event =
    | Tick(seconds: real)
    | Enter(caller: Caller)
    | Acquire(caller: Caller)
    | Finish(caller: Caller, result: Option<Summary>)

  const INIT := State(0.0, None, None, map[], [], [])

  predicate Fresh(s: State) {
    s.cache.Some? && s.now - s.cache.value.at < TTL
  }

  /** Enter, Acquire and Finish are the three atomic stretches of a call. */
  function Step(s: State, e: Event): State {
    match e
    case Tick(d) =>
      if d >= 0.0 then s.(now := s.now + d) else s
    case Enter(c) =>
      if c in s.phases then s
      else if Fresh(s) then s.(phases := s.phases[c := Returned(FromCache(s.cache.value, s.now))])
      else s.(phases := s.phases[c := Waiting])
    case Acquire(c) =>
      if c !in s.phases || s.phases[c] != Waiting || s.holder.Some? then s
      else if Fresh(s) then s.(phases := s.phases[c := Returned(FromCache(s.cache.value, s.now))])
      else s.(phases := s.phases[c := Scanning(s.now)], holder := Some(c), starts := s.starts + [s.now])
    case Finish(c, result) =>
      if c !in s.phases || !s.phases[c].Scanning? then s
      else
        var entry := Published(if result.Some? then result.value else EMPTY_SUMMARY, s.now, c);
        s.(cache := Some(entry), phases := s.phases[c := Returned(FromOwnScan(entry))],
           holder := None, log := s.log + [entry])
  }

  function Run(s: State, es: seq<Event>): State
    decreases |es|
  {
    if es == [] then s else Run(Step(s, es[0]), es[1..])
  }

  // ----- Safety ---------------------------------------------------------------------

  /** At most one scan is in flight: the caller that holds the lock. */
  ghost predicate OneScan(s: State) {
    && (forall c <- s.phases :: s.phases[c].Scanning? <==> s.holder == Some(c))
    && (s.holder.Some? ==> s.holder.value in s.phases)
    && |s.starts| == |s.log| + (if s.holder.Some? then 1 else 0)
  }

  /** Scans never overlap, and each starts at least TTL after the previous publication. */
  ghost predicate Spaced(s: State) {
    && (forall i {:trigger s.log[i]} :: 0 <= i < |s.log| && i < |s.starts| ==> s.starts[i] <= s.log[i].at <= s.now)
    && (forall i {:trigger s.log[i]} :: 0 <= i < |s.log| && i + 1 < |s.starts| ==> s.log[i].at + TTL <= s.starts[i + 1])
    && (forall t <- s.starts :: t <= s.now)
    && s.cache == (if s.log == [] then None else Some(s.log[|s.log| - 1]))
  }

  /** A caller returns a publication fresher than TTL at its check, or the one it scanned. */
  ghost predicate Justified(c: Caller, a: Answer, log: seq<Published>) {
    && a.entry in log
    && match a
       case FromCache(entry, checkedAt) => entry.at <= checkedAt < entry.at + TTL
       case FromOwnScan(entry) => entry.scanner == c
  }

  ghost predicate Answered(s: State) {
    forall c <- s.phases :: s.phases[c].Returned? ==> Justified(c, s.phases[c].answer, s.log)
  }

  ghost predicate Safe(s: State) {
    OneScan(s) && Spaced(s) && Answered(s)
  }

  lemma StepSafe(s: State, e: Event)
    requires Safe(s)
    ensures Safe(Step(s, e))
  {
    match e
    case Tick(_) =>
    case Enter(c) =>
    case Acquire(c) => AcquireSafe(s, c);
    case Finish(c, result) => FinishSafe(s, c, result);
  }

  lemma AcquireSafe(s: State, c: Caller)
    requires Safe(s)
    ensures Safe(Step(s, Acquire(c)))
  {}

  lemma FinishSafe(s: State, c: Caller, result: Option<Summary>)
    requires Safe(s)
    ensures Safe(Step(s, Finish(c, result)))
  {
    if c in s.phases && s.phases[c].Scanning? {
      assert s.starts[|s.log|] in s.starts;
    }
  }

  /** Every interleaving of any number of callers is safe. */
  lemma {:induction false} EveryRunIsSafe(s: State, es: seq<Event>)
    requires Safe(s)
    ensures Safe(Run(s, es))
    decreases |es|
  {
    if es != [] {
      StepSafe(s, es[0]);
      EveryRunIsSafe(Step(s, es[0]), es[1..]);
    }
  }

  // ----- What safety means for callers --------------------------------------------------

  /** Scans are rate limited: between the i-th and the j-th start lie at least (j - i) TTLs. */
  lemma {:induction false} StartsSpaced(s: State, i: nat, j: nat)
    requires Safe(s) && i <= j < |s.starts|
    ensures s.starts[j] - s.starts[i] >= (j - i) as real * TTL
    decreases j - i
  {
    if i < j {
      assert s.starts[i] <= s.log[i].at;
      StartsSpaced(s, i + 1, j);
    }
  }

  lemma LogSpaced(s: State, i: nat, j: nat)
    requires Safe(s) && i < j < |s.log|
    ensures s.log[j].at >= s.log[i].at + TTL
  {
    assert s.starts[j] <= s.log[j].at;
    assert s.log[i].at + TTL <= s.starts[i + 1];
    StartsSpaced(s, i + 1, j);
  }

  /** In every reachable state: at most one scan in flight; over any interval of d seconds at
      most d / TTL + 1 scans start; a cached answer is the newest publication at its check. */
  lemma SingleFlightGuarantee(es: seq<Event>)
    ensures var s := Run(INIT, es);
            && (forall c <- s.phases, d <- s.phases :: s.phases[c].Scanning? && s.phases[d].Scanning? ==> c == d)
            && Spaced(s)
            && (forall i, j :: 0 <= i <= j < |s.starts| ==> s.starts[j] - s.starts[i] >= (j - i) as real * 600.0)
            && Summaries(s.log) == Results(INIT, es)
            && (forall c <- s.phases :: s.phases[c].Returned? ==> Justified(c, s.phases[c].answer, s.log))
            && (forall c <- s.phases :: s.phases[c].Returned? && s.phases[c].answer.FromCache? ==>
                  Newest(s.phases[c].answer, s.log))
  {
    EveryRunIsSafe(INIT, es);
    LogIsResults(INIT, es);
    var s := Run(INIT, es);
    forall i, j | 0 <= i <= j < |s.starts| ensures s.starts[j] - s.starts[i] >= (j - i) as real * TTL {
      StartsSpaced(s, i, j);
    }
    forall c <- s.phases | s.phases[c].Returned? && s.phases[c].answer.FromCache?
      ensures Newest(s.phases[c].answer, s.log)
    {
      FreshIsNewest(s, c);
    }
  }

  ghost predicate Newest(a: Answer, log: seq<Published>)
    requires a.FromCache?
  {
    forall q <- log :: q.at <= a.checkedAt ==> q.at <= a.entry.at
  }

  lemma FreshIsNewest(s: State, c: Caller)
    requires Safe(s) && c in s.phases && s.phases[c].Returned? && s.phases[c].answer.FromCache?
    ensures Newest(s.phases[c].answer, s.log)
  {
    var a := s.phases[c].answer;
    var i :| 0 <= i < |s.log| && s.log[i] == a.entry;
    forall q <- s.log | q.at <= a.checkedAt ensures q.at <= a.entry.at {
      var j :| 0 <= j < |s.log| && s.log[j] == q;
      if i < j {
        LogSpaced(s, i, j);
      } else if j < i {
        LogSpaced(s, j, i);
      }
    }
  }

  // ----- Nobody is stuck ----------------------------------------------------------------------

  /** The steps of a caller: a check that finds a publication younger than ten minutes returns
      it; the first check otherwise waits, and the check under a free lock starts a scan. */
  lemma ChecksMean(s: State, c: Caller)
    ensures var young := s.cache.Some? && s.now < s.cache.value.at + 600.0;
            && (c !in s.phases ==>
                  Step(s, Enter(c)).phases ==
                  s.phases[c := if young then Returned(FromCache(s.cache.value, s.now)) else Waiting])
            && (c in s.phases && s.phases[c].Waiting? && s.holder.None? ==>
                  var s' := Step(s, Acquire(c));
                  && s'.phases == s.phases[c := if young then Returned(FromCache(s.cache.value, s.now)) else Scanning(s.now)]
                  && s'.starts == s.starts + (if young then [] else [s.now]))
    ensures forall d :: d >= 0.0 ==> Step(s, Tick(d)) == s.(now := s.now + d)
  {}

  lemma RunFirst(s: State, e: Event, es: seq<Event>)
    ensures Run(s, [e] + es) == Run(Step(s, e), es)
  {
    assert ([e] + es)[1..] == es;
  }

  /** From every safe state, every caller that has the lock can end its scan, and then every
      waiting one can return: no interleaving blocks a caller for good. */
  lemma CanReturn(s: State, c: Caller, result: Option<Summary>) returns (es: seq<Event>)
    requires Safe(s)
    ensures c in Run(s, es).phases && Run(s, es).phases[c].Returned?
    decreases if c !in s.phases then 3 else if s.phases[c].Returned? then 0 else if s.holder == Some(c) then 1 else 2, if s.holder.Some? then 1 else 0
  {
    if c in s.phases && s.phases[c].Returned? {
      es := [];
    } else {
      var e := if c !in s.phases then Enter(c) else if s.holder.Some? then Finish(s.holder.value, result) else Acquire(c);
      StepSafe(s, e);
      es := CanReturn(Step(s, e), c, result);
      RunFirst(s, e, es);
      es := [e] + es;
    }
  }

  // ----- What is published and served ----------------------------------------------------------

  /** The summary a scan stands for; one that raised stands for no providers and no bytes. */
  function Outcome(result: Option<Summary>): Summary {
    match result
    case Some(summary) => summary
    case None => Summary([], 0)
  }

  /** The results of the scans that end during a run, in order. */
  function Results(s: State, es: seq<Event>): seq<Summary>
    decreases |es|
  {
    if es == [] then []
    else (match es[0]
          case Finish(c, result) => if c in s.phases && s.phases[c].Scanning? then [Outcome(result)] else []
          case _ => []) + Results(Step(s, es[0]), es[1..])
  }

  function Summaries(log: seq<Published>): seq<Summary> {
    seq(|log|, i requires 0 <= i < |log| => log[i].summary)
  }

  /** The publications of every run are exactly the results of its scans, in order. */
  lemma {:induction false} LogIsResults(s: State, es: seq<Event>)
    ensures Summaries(Run(s, es).log) == Summaries(s.log) + Results(s, es)
    decreases |es|
  {
    if es != [] {
      var s' := Step(s, es[0]);
      LogIsResults(s', es[1..]);
      var first := Results(s, es)[..|Results(s, es)| - |Results(s', es[1..])|];
      assert Summaries(s'.log) == Summaries(s.log) + first;
    }
  }

  lemma {:induction false} ReturnedStays(s: State, es: seq<Event>, c: Caller)
    requires c in s.phases && s.phases[c].Returned?
    ensures c in Run(s, es).phases && Run(s, es).phases[c] == s.phases[c]
    decreases |es|
  {
    if es != [] {
      ReturnedStays(Step(s, es[0]), es[1..], c);
    }
  }

  /** The publication of a scan that ends now. */
  function EntryOf(s: State, c: Caller, result: Option<Summary>): Published {
    Published(Outcome(result), s.now, c)
  }

  /** When a scan ends, its result is cached, and it is what its own caller has returned from
      then on. */
  lemma OwnScanAnswer(s: State, c: Caller, result: Option<Summary>, es: seq<Event>)
    requires c in s.phases && s.phases[c].Scanning?
    ensures var s1 := Step(s, Finish(c, result));
            && s1.cache == Some(EntryOf(s, c, result)) && s1.log == s.log + [EntryOf(s, c, result)]
            && c in Run(s1, es).phases && Run(s1, es).phases[c] == Returned(FromOwnScan(EntryOf(s, c, result)))
  {
    ReturnedStays(Step(s, Finish(c, result)), es, c);
  }

  lemma {:induction false} TimeMovesOn(s: State, es: seq<Event>)
    ensures s.now <= Run(s, es).now
    decreases |es|
  {
    if es != [] {
      TimeMovesOn(Step(s, es[0]), es[1..]);
    }
  }

  /** Since `from`, `entry` has been the cached one, nobody scans, and whoever has answered
      since then answered with it. */
  ghost predicate OnlyServes(from: State, entry: Published, s: State) {
    && s.cache == Some(entry) && s.holder.None? && from.phases.Keys <= s.phases.Keys
    && forall d <- s.phases ::
         if d in from.phases && from.phases[d].Returned? then s.phases[d] == from.phases[d]
         else s.phases[d] == Waiting || ServedBy(s.phases[d], entry)
  }

  predicate ServedBy(p: Phase, entry: Published) {
    p.Returned? && p.answer.FromCache? && p.answer.entry == entry
  }

  lemma {:induction false} OnlyServesRun(from: State, entry: Published, s: State, es: seq<Event>)
    requires OnlyServes(from, entry, s) && Run(s, es).now < entry.at + TTL
    ensures OnlyServes(from, entry, Run(s, es))
    decreases |es|
  {
    if es != [] {
      TimeMovesOn(s, es);
      OnlyServesRun(from, entry, Step(s, es[0]), es[1..]);
    }
  }

  lemma FinishOnlyServes(s: State, c: Caller, result: Option<Summary>)
    requires Safe(s) && c in s.phases && s.phases[c].Scanning?
    ensures var s1 := Step(s, Finish(c, result)); OnlyServes(s1, s1.cache.value, s1)
  {
    assert s.holder == Some(c);
  }

  /** Over every run that follows a scan: until TTL has passed, every caller that was waiting or
      has come since and has its answer got that scan's result; and no check made once TTL has
      passed is ever answered with it. */
  lemma ScanIsCached(s: State, c: Caller, result: Option<Summary>, es: seq<Event>)
    requires Safe(s) && c in s.phases && s.phases[c].Scanning?
    ensures var s1 := Step(s, Finish(c, result));
            var t := Run(s1, es);
            && (t.now < s.now + TTL ==>
                  forall d <- t.phases :: t.phases[d].Returned? && !(d in s1.phases && s1.phases[d].Returned?) ==>
                    ServedBy(t.phases[d], EntryOf(s, c, result)))
            && (forall d <- t.phases :: ServedBy(t.phases[d], EntryOf(s, c, result)) ==>
                  t.phases[d].answer.checkedAt < s.now + TTL)
  {
    var s1 := Step(s, Finish(c, result));
    StepSafe(s, Finish(c, result));
    EveryRunIsSafe(s1, es);
    FinishOnlyServes(s, c, result);
    if Run(s1, es).now < s.now + TTL {
      OnlyServesRun(s1, EntryOf(s, c, result), s1, es);
    }
  }

  /** The step by which a new caller checks the cache, or a waiting one checks it again. */
  function Check(s: State, d: Caller): Event { if d in s.phases then Acquire(d) else Enter(d) }

  /** Whatever has happened since a scan ended, the next check of a new or waiting caller is
      answered with that scan's result if and only if TTL has not passed. */
  lemma ScanServedIff(s: State, c: Caller, result: Option<Summary>, es: seq<Event>, d: Caller)
    requires Safe(s) && c in s.phases && s.phases[c].Scanning?
    requires var t := Run(Step(s, Finish(c, result)), es); d in t.phases ==> t.phases[d].Waiting?
    ensures var t := Run(Step(s, Finish(c, result)), es);
            var t' := Step(t, Check(t, d));
            t.now < s.now + TTL <==> d in t'.phases && ServedBy(t'.phases[d], EntryOf(s, c, result))
  {
    var s1 := Step(s, Finish(c, result));
    var t := Run(s1, es);
    if t.now < s.now + TTL {
      FinishOnlyServes(s, c, result);
      OnlyServesRun(s1, EntryOf(s, c, result), s1, es);
    }
  }

  /** A failed scan too: for ten minutes its empty summary is what every check is answered with. */
  lemma FailureServedIff(s: State, c: Caller, es: seq<Event>, d: Caller)
    requires Safe(s) && c in s.phases && s.phases[c].Scanning?
    requires var t := Run(Step(s, Finish(c, None)), es); d in t.phases ==> t.phases[d].Waiting?
    ensures var t := Run(Step(s, Finish(c, None)), es);
            var t' := Step(t, Check(t, d));
            t.now < s.now + 600.0 <==> d in t'.phases && ServedBy(t'.phases[d], Published(Summary([], 0), s.now, c))
  {
    ScanServedIff(s, c, None, es, d);
  }
}
