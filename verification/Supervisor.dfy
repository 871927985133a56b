/** The worker-plane supervisor of gui.py.

    Health polls call `_ensure_worker_planes_alive_threadsafe` from any number of threads; an
    in-flight flag, read and set under a lock, lets one supervision pass run at a time.  A
    pass looks at each plane and then acts on what it saw; processes may die and subsystem
    flags may change between any two steps.  A run is any sequence of the events below; an
    event that is not enabled does nothing. */
module Supervisor {

  type Plane = string
  type Pid = nat
  type Thread = nat

  const PLANES: seq<Plane> :=
    ["trading", "news", "discovery", "recording", "detection", "reconciliation", "services", "jobs"]

  /** The subsystems that gate a plane; other planes always run. */
  function Gates(p: Plane): set<string> {
    match p
    case "detection" => {"scanner"}
    case "news" => {"news", "weather"}
    case "discovery" => {"discovery"}
    case _ => {}
  }

  type Flags = map<string, bool>

  /** `flags.get(s, default)`: only the scanner is on by default. */
  predicate FlagSet(flags: Flags, s: string) {
    if s in flags then flags[s] else s == "scanner"
  }

  predicate Enabled(flags: Flags, p: Plane) {
    Gates(p) == {} || exists s <- Gates(p) :: FlagSet(flags, s)
  }

  function EnabledPlanes(flags: Flags): set<Plane> {
    set p | p in PLANES && Enabled(flags, p)
  }

  /** Which planes run, by the flags: five always; detection unless the scanner is switched off;
      news if news or weather is switched on; discovery if it is switched on; no other plane. */
  lemma GatedPlanes(flags: Flags)
    ensures {"trading", "recording", "reconciliation", "services", "jobs"} <= EnabledPlanes(flags)
    ensures "detection" in EnabledPlanes(flags) <==> !("scanner" in flags && !flags["scanner"])
    ensures "news" in EnabledPlanes(flags) <==> ("news" in flags && flags["news"]) || ("weather" in flags && flags["weather"])
    ensures "discovery" in EnabledPlanes(flags) <==> "discovery" in flags && flags["discovery"]
    ensures forall p <- EnabledPlanes(flags) ::
              p in {"trading", "recording", "reconciliation", "services", "jobs", "detection", "news", "discovery"}
  {
    assert PLANES[0] == "trading" && PLANES[1] == "news" && PLANES[2] == "discovery" && PLANES[3] == "recording";
    assert PLANES[4] == "detection" && PLANES[5] == "reconciliation" && PLANES[6] == "services" && PLANES[7] == "jobs";
    FlagsMean(flags);
    assert "news" in Gates("news") && "weather" in Gates("news");
    assert "scanner" in Gates("detection") && "discovery" in Gates("discovery");
  }

  lemma FlagsMean(flags: Flags)
    ensures FlagSet(flags, "scanner") <==> !("scanner" in flags && !flags["scanner"])
    ensures FlagSet(flags, "news") <==> "news" in flags && flags["news"]
    ensures FlagSet(flags, "weather") <==> "weather" in flags && flags["weather"]
    ensures FlagSet(flags, "discovery") <==> "discovery" in flags && flags["discovery"]
  {}

  /** What a pass decided on seeing a plane. */
  datatype Decision = Skip | Stop | Spawn

  datatype Phase = Looking(plane: nat) | Acting(plane: nat, decision: Decision) | Leaving

  /** `procs` is worker_procs; `owner` remembers for which plane each process was started;
      `enabled` is what the current flags give. */
  datatype State = State(
    inflight: bool,
    passes: map<Thread, Phase>,
    procs: map<Plane, Pid>,
    live: set<Pid>,
    owner: map<Pid, Plane>,
    enabled: set<Plane>,
    backendUp: bool)

  datatype Event =
    | Poll(thread: Thread)
    | Look(thread: Thread)
    | Act(thread: Thread, spawned: Pid, spawnOk: bool)
    | Raise(thread: Thread)
    | Leave(thread: Thread)
    | Die(pid: Pid)
    | Toggle(flags: Flags)
    | Backend(up: bool)

  function Init(flags: Flags): State { State(false, map[], map[], {}, map[], EnabledPlanes(flags), true) }

  predicate Running(s: State, p: Plane) {
    p in s.procs && s.procs[p] in s.live
  }

  /** Called from any thread; a pass in flight turns the call away. */
  function Enter(s: State, t: Thread): State {
    if s.inflight || t in s.passes then s
    else s.(inflight := true, passes := s.passes[t := if s.backendUp then Looking(0) else Leaving])
  }

  function Decide(s: State, p: Plane): Decision {
    if p !in s.enabled then (if Running(s, p) then Stop else Skip)
    else if Running(s, p) then Skip
    else Spawn
  }

  function LookAt(planes: seq<Plane>, s: State, t: Thread): State {
    if t !in s.passes || !s.passes[t].Looking? then s
    else if s.passes[t].plane >= |planes| then s.(passes := s.passes[t := Leaving])
    else
      var i := s.passes[t].plane;
      s.(passes := s.passes[t := Acting(i, Decide(s, planes[i]))])
  }

  /** Terminating kills the plane's process and forgets it; a spawned process is a new one. */
  function Carry(s: State, p: Plane, d: Decision, pid: Pid, ok: bool): State {
    match d
    case Skip => s
    case Stop =>
      if p in s.procs then s.(live := s.live - {s.procs[p]}, procs := s.procs - {p}) else s
    case Spawn =>
      if ok && pid !in s.owner
      then s.(live := s.live + {pid}, procs := s.procs[p := pid], owner := s.owner[pid := p])
      else s
  }

  function ActOn(planes: seq<Plane>, s: State, t: Thread, pid: Pid, ok: bool): State {
    if t !in s.passes || !s.passes[t].Acting? || s.passes[t].plane >= |planes| then s
    else
      var i := s.passes[t].plane;
      var s' := Carry(s, planes[i], s.passes[t].decision, pid, ok);
      s'.(passes := s'.passes[t := Looking(i + 1)])
  }

  function Step(planes: seq<Plane>, s: State, e: Event): State {
    match e
    case Poll(t) => Enter(s, t)
    case Look(t) => LookAt(planes, s, t)
    case Act(t, pid, ok) => ActOn(planes, s, t, pid, ok)
    case Raise(t) => if t in s.passes then s.(passes := s.passes[t := Leaving]) else s
    case Leave(t) =>
      if t in s.passes && s.passes[t].Leaving? then s.(inflight := false, passes := s.passes - {t}) else s
    case Die(pid) => s.(live := s.live - {pid})
    case Toggle(flags) => s.(enabled := EnabledPlanes(flags))
    case Backend(up) => s.(backendUp := up)
  }

  function Run(planes: seq<Plane>, s: State, es: seq<Event>): State
    decreases |es|
  {
    if es == [] then s else Run(planes, Step(planes, s, es[0]), es[1..])
  }

  // ----- Safety ------------------------------------------------------------------------------

  /** One pass at a time, and the flag says whether there is one. */
  ghost predicate OnePass(s: State) {
    && (forall t <- s.passes, u <- s.passes :: t == u)
    && (s.inflight <==> s.passes != map[])
  }

  /** Every live supervised process is the one on record for its plane. */
  ghost predicate OnRecord(s: State) {
    && (forall pid <- s.live :: pid in s.owner && s.owner[pid] in s.procs && s.procs[s.owner[pid]] == pid)
    && (forall p <- s.procs :: s.procs[p] in s.owner && s.owner[s.procs[p]] == p)
  }

  /** A pass about to spawn still sees no live process of that plane. */
  ghost predicate SpawnIsDue(planes: seq<Plane>, s: State) {
    forall t <- s.passes :: s.passes[t].Acting? ==>
      s.passes[t].plane < |planes| && (s.passes[t].decision.Spawn? ==> !Running(s, planes[s.passes[t].plane]))
  }

  ghost predicate Safe(planes: seq<Plane>, s: State) { OnePass(s) && OnRecord(s) && SpawnIsDue(planes, s) }

  lemma CarrySafe(s: State, p: Plane, d: Decision, pid: Pid, ok: bool)
    requires OnRecord(s) && (d.Spawn? ==> !Running(s, p))
    ensures OnRecord(Carry(s, p, d, pid, ok))
  {}

  lemma ActSafe(planes: seq<Plane>, s: State, t: Thread, pid: Pid, ok: bool)
    requires Safe(planes, s)
    ensures Safe(planes, ActOn(planes, s, t, pid, ok))
  {
    if t in s.passes && s.passes[t].Acting? {
      CarrySafe(s, planes[s.passes[t].plane], s.passes[t].decision, pid, ok);
    }
  }

  lemma LookSafe(planes: seq<Plane>, s: State, t: Thread)
    requires Safe(planes, s)
    ensures Safe(planes, LookAt(planes, s, t))
  {}

  lemma EnterSafe(planes: seq<Plane>, s: State, t: Thread)
    requires Safe(planes, s)
    ensures Safe(planes, Enter(s, t))
  {}

  lemma StepSafe(planes: seq<Plane>, s: State, e: Event)
    requires Safe(planes, s)
    ensures Safe(planes, Step(planes, s, e))
  {
    match e
    case Poll(t) => EnterSafe(planes, s, t);
    case Look(t) => LookSafe(planes, s, t);
    case Act(t, pid, ok) => ActSafe(planes, s, t, pid, ok);
    case Leave(t) =>
      assert t in s.passes && s.passes[t].Leaving? ==> s.passes - {t} == map[];
    case Raise(t) =>
    case Die(pid) =>
    case Toggle(flags) =>
    case Backend(up) =>
  }

  /** In every run of any number of threads: at most one pass in flight, and at most one live
      supervised process per plane. */
  lemma {:induction false} EveryRunIsSafe(planes: seq<Plane>, s: State, es: seq<Event>)
    requires Safe(planes, s)
    ensures Safe(planes, Run(planes, s, es))
    decreases |es|
  {
    if es != [] {
      StepSafe(planes, s, es[0]);
      EveryRunIsSafe(planes, Step(planes, s, es[0]), es[1..]);
    }
  }

  lemma SupervisorGuarantee(flags: Flags, es: seq<Event>)
    ensures var s := Run(PLANES, Init(flags), es);
            && (forall t <- s.passes, u <- s.passes :: t == u)
            && (forall a <- s.live, b <- s.live :: a in s.owner && b in s.owner && (s.owner[a] == s.owner[b] ==> a == b))
  {
    EveryRunIsSafe(PLANES, Init(flags), es);
  }

  // ----- An undisturbed pass -------------------------------------------------------------------

  /** The pass from plane i on, with the spawns pids[i..] all succeeding. */
  function Visit(planes: seq<Plane>, s: State, t: Thread, pids: seq<Pid>, i: nat): State
    requires |pids| == |planes| && i <= |planes|
    decreases |planes| - i
  {
    if i == |planes| then Step(planes, Step(planes, s, Look(t)), Leave(t))
    else Visit(planes, Step(planes, Step(planes, s, Look(t)), Act(t, pids[i], true)), t, pids, i + 1)
  }

  ghost predicate NewPids(s: State, pids: seq<Pid>, from: nat)
    requires from <= |pids|
  {
    && (forall k :: from <= k < |pids| ==> pids[k] !in s.owner)
    && (forall j, k :: from <= j < k < |pids| ==> pids[j] != pids[k])
  }

  /** The first i planes run exactly if they are enabled. */
  ghost predicate SettledTo(planes: seq<Plane>, s: State, i: nat)
    requires i <= |planes|
  {
    forall j :: 0 <= j < i ==> (Running(s, planes[j]) <==> planes[j] in s.enabled)
  }

  predicate Distinct(planes: seq<Plane>) {
    forall i, j :: 0 <= i < j < |planes| ==> planes[i] != planes[j]
  }

  lemma PlanesDistinct()
    ensures Distinct(PLANES)
  {}

  lemma VisitOne(planes: seq<Plane>, s: State, t: Thread, pid: Pid, i: nat)
    requires Distinct(planes) && Safe(planes, s) && i < |planes| && pid !in s.owner
    requires t in s.passes && s.passes[t] == Looking(i) && SettledTo(planes, s, i)
    ensures var s' := Step(planes, Step(planes, s, Look(t)), Act(t, pid, true));
            && Safe(planes, s') && t in s'.passes && s'.passes[t] == Looking(i + 1) && SettledTo(planes, s', i + 1)
            && s'.enabled == s.enabled && s'.owner.Keys <= s.owner.Keys + {pid}
  {
    StepSafe(planes, s, Look(t));
    var s1 := Step(planes, s, Look(t));
    StepSafe(planes, s1, Act(t, pid, true));
    var s' := Step(planes, s1, Act(t, pid, true));
    forall j | 0 <= j < i + 1 ensures Running(s', planes[j]) <==> planes[j] in s'.enabled {
      if j < i {
        assert planes[j] != planes[i];
      }
    }
  }

  lemma {:induction false} VisitSettles(planes: seq<Plane>, s: State, t: Thread, pids: seq<Pid>, i: nat)
    requires Distinct(planes) && |pids| == |planes| && i <= |planes|
    requires Safe(planes, s) && t in s.passes && s.passes[t] == Looking(i) && SettledTo(planes, s, i) && NewPids(s, pids, i)
    ensures var s' := Visit(planes, s, t, pids, i);
            Safe(planes, s') && !s'.inflight && s'.enabled == s.enabled && SettledTo(planes, s', |planes|)
    decreases |planes| - i
  {
    if i == |planes| {
      StepSafe(planes, s, Look(t));
      StepSafe(planes, Step(planes, s, Look(t)), Leave(t));
    } else {
      VisitOne(planes, s, t, pids[i], i);
      VisitSettles(planes, Step(planes, Step(planes, s, Look(t)), Act(t, pids[i], true)), t, pids, i + 1);
    }
  }

  /** From every safe state with the backend up and no pass in flight, a pass that nothing
      disturbs and whose spawns succeed ends with exactly the enabled planes running. */
  lemma UndisturbedPassSettles(s: State, t: Thread, pids: seq<Pid>)
    requires Safe(PLANES, s) && !s.inflight && s.backendUp && |pids| == |PLANES| && NewPids(s, pids, 0)
    ensures var s' := Visit(PLANES, Enter(s, t), t, pids, 0);
            Safe(PLANES, s') && !s'.inflight && forall p <- PLANES :: Running(s', p) <==> p in s.enabled
  {
    EnterSafe(PLANES, s, t);
    PlanesDistinct();
    VisitSettles(PLANES, Enter(s, t), t, pids, 0);
  }

  /** While the backend is down, a poll starts and stops nothing: its pass leaves at once. */
  lemma BackendDownLeavesAlone(s: State, t: Thread)
    requires Safe(PLANES, s) && !s.inflight && !s.backendUp
    ensures Step(PLANES, Step(PLANES, s, Poll(t)), Leave(t)) == s
    ensures Step(PLANES, Step(PLANES, s, Poll(t)), Look(t)) == Step(PLANES, s, Poll(t))
    ensures forall pid, ok :: Step(PLANES, Step(PLANES, s, Poll(t)), Act(t, pid, ok)) == Step(PLANES, s, Poll(t))
  {
    assert s.passes == map[];
    assert map[t := Leaving] - {t} == map[];
    assert Step(PLANES, s, Poll(t)).passes[t] == Leaving;
  }

  // ----- What the environment does ---------------------------------------------------------------

  /** A process that dies no longer runs, and only it; a toggle changes which planes are enabled
      and nothing else; an error or the end of a pass lets the next poll in. */
  lemma EventsMean(s: State, pid: Pid, flags: Flags, up: bool, t: Thread)
    ensures Step(PLANES, s, Die(pid)) == s.(live := s.live - {pid})
    ensures Step(PLANES, s, Toggle(flags)) == s.(enabled := EnabledPlanes(flags))
    ensures Step(PLANES, s, Backend(up)) == s.(backendUp := up)
    ensures t in s.passes ==> !Step(PLANES, Step(PLANES, s, Raise(t)), Leave(t)).inflight
  {}

  /** After the flags change, or after processes die, the next undisturbed pass ends with exactly
      the planes running that the new flags enable. */
  lemma ChangeTakesEffect(s: State, flags: Flags, dead: Pid, t: Thread, pids: seq<Pid>)
    requires Safe(PLANES, s) && !s.inflight && s.backendUp && |pids| == |PLANES| && NewPids(s, pids, 0)
    ensures var s1 := Step(PLANES, Step(PLANES, s, Toggle(flags)), Die(dead));
            var s' := Visit(PLANES, Enter(s1, t), t, pids, 0);
            dead !in s1.live && forall p <- PLANES :: Running(s', p) <==> p in EnabledPlanes(flags)
  {
    StepSafe(PLANES, s, Toggle(flags));
    StepSafe(PLANES, Step(PLANES, s, Toggle(flags)), Die(dead));
    UndisturbedPassSettles(Step(PLANES, Step(PLANES, s, Toggle(flags)), Die(dead)), t, pids);
  }
}
