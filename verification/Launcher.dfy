/** internal/agent/launcher.go with launcher_exec_unix.go, healthmarker.go and selfupdate_apply_unix.go:
    the supervisor, the payload child it runs, the health marker and the version pointers, as a
    state machine in which any of the racing events may come first. */
module Launcher {
  import opened Text
  import P = PayloadStore

  type Version = string
  type ChildId = nat

  const SCHEMA: int := 1

  /** The health marker file; `author` records which child wrote it. */
  datatype Marker = Marker(schema: int, version: Version, author: ChildId)

  /** markerHealthWaiter.matches: a known schema and the awaited version. */
  predicate Matches(m: Option<Marker>, v: Version) {
    m.Some? && m.value.schema == SCHEMA && m.value.version == v
  }

  datatype HealthResult = Pending | Healthy | Missed
  datatype AfterStop = ThenShutdown | ThenDemote | ThenRestart
  /** What Run returns. A rollback that fails on a call is reported in the same words as one without a
      previous version; here they are told apart. */
  datatype Result = CleanStop | NoCurrent | StartFailed | NoLastKnownGood | RollbackFailed

  /** Rollback: done; failed before the swap; or failed on the sync after it. */
  datatype RollbackResult = Rolled | Unmoved | Unsynced

  /** Where Run is. `v` is the version it resolved at the top of the loop. */
  datatype Pc =
    | Top
    | Starting(v: Version)                          // before the stale marker is removed
    | Spawning(v: Version)                          // marker removed, child not yet started
    | AwaitHealth(v: Version, health: HealthResult) // superviseUntilHealthy
    | Steady(v: Version)                            // superviseSteadyState
    | Stopping(v: Version, next: AfterStop)         // stop the child, then drain its exit
    | Demoting(v: Version)                          // demoteBadVersion, before the quarantine mark
    | RollingBack(v: Version)                       // demoteBadVersion, before the rollback
    | Returned(r: Result)

  /** What happened to children, in order. */
  datatype Act = Spawned(id: ChildId, v: Version) | Wrote(id: ChildId, schema: int, version: Version)

  datatype Child = Child(id: ChildId, version: Version, committed: bool, activating: Option<Version>)

  datatype State = State(
    pc: Pc,
    alive: set<ChildId>,
    nextId: ChildId,
    child: Option<Child>,        // the child started last
    marker: Option<Marker>,
    pendingUpdate: bool,
    current: Option<Version>,
    previous: Option<Version>,
    quarantine: set<Version>,
    cancelled: bool,             // the service manager asked for a stop
    deprovisioned: bool,
    lastCommitted: Option<Version>,
    log: seq<Act>)

  datatype Event =
    // the launcher
    | Loop | ResolveFails | ClearMarker | Spawn(ok: bool)
    | PollHealth | Deadline
    | SelectCancel | SelectExit | SelectHealth | SelectTick
    | Killed | Stopped
    | Mark(ok: bool) | RollBack(r: RollbackResult)
    // the running child
    | Commit(schema: int, version: Version)
    | BeginActivate(w: Version)   // previous takes current's target
    | EndActivate                 // current takes the new target
    | AskRestart | Exit
    // the outside
    | Cancel | Deprovision | ServiceRestart

  predicate ChildAlive(s: State) { s.child.Some? && s.child.value.id in s.alive }

  predicate AwaitsExit(s: State) { s.pc.AwaitHealth? || s.pc.Steady? }

  function Next(s: State, e: Event): State {
    match e
    case Loop =>
      if !s.pc.Top? then s
      else if s.deprovisioned then s.(pc := Returned(CleanStop))
      else if s.current.None? then s.(pc := Returned(NoCurrent))
      else s.(pc := Starting(s.current.value))
    case ResolveFails =>
      if s.pc.Top? && !s.deprovisioned then s.(pc := Returned(NoCurrent)) else s
    case ClearMarker =>
      if s.pc.Starting? then s.(marker := None, pc := Spawning(s.pc.v)) else s
    case Spawn(ok) =>
      if !s.pc.Spawning? then s
      else if !ok then s.(pc := Returned(StartFailed))
      else s.(pc := AwaitHealth(s.pc.v, Pending), alive := s.alive + {s.nextId}, nextId := s.nextId + 1,
              child := Some(Child(s.nextId, s.pc.v, false, None)), log := s.log + [Spawned(s.nextId, s.pc.v)])
    case PollHealth =>
      if s.pc.AwaitHealth? && s.pc.health.Pending? && Matches(s.marker, s.pc.v)
      then s.(pc := AwaitHealth(s.pc.v, Healthy)) else s
    case Deadline =>
      if s.pc.AwaitHealth? && s.pc.health.Pending? then s.(pc := AwaitHealth(s.pc.v, Missed)) else s
    case SelectCancel =>
      if AwaitsExit(s) && s.cancelled then s.(pc := Stopping(s.pc.v, ThenShutdown)) else s
    case SelectExit =>
      if !AwaitsExit(s) || ChildAlive(s) then s
      else if s.cancelled || s.deprovisioned then s.(pc := Returned(CleanStop))
      else if s.pc.AwaitHealth? then s.(pc := Demoting(s.pc.v))
      else s.(pc := Top)
    case SelectHealth =>
      if !s.pc.AwaitHealth? || s.pc.health.Pending? then s
      else if s.pc.health.Healthy? then s.(pc := Steady(s.pc.v))
      else s.(pc := Stopping(s.pc.v, if s.cancelled then ThenShutdown else ThenDemote))
    case SelectTick =>
      if s.pc.Steady? && s.pendingUpdate
      then s.(pendingUpdate := false, pc := Stopping(s.pc.v, ThenRestart)) else s
    case Killed =>
      if s.pc.Stopping? && s.child.Some? then s.(alive := s.alive - {s.child.value.id}) else s
    case Stopped =>
      if !s.pc.Stopping? || ChildAlive(s) then s
      else s.(pc := match s.pc.next
                    case ThenShutdown => Returned(CleanStop)
                    case ThenDemote => Demoting(s.pc.v)
                    case ThenRestart => Top)
    case Mark(ok) =>
      if !s.pc.Demoting? then s
      else s.(pc := RollingBack(s.pc.v), quarantine := if ok then s.quarantine + {s.pc.v} else s.quarantine)
    case RollBack(r) =>
      if !s.pc.RollingBack? then s
      else if s.previous.None? then s.(pc := Returned(NoLastKnownGood))
      else s.(pc := if r.Rolled? then Top else Returned(RollbackFailed),
              current := if r.Unmoved? then s.current else s.previous)
    case Commit(schema, version) =>
      if !ChildAlive(s) then s
      else
        var c := s.child.value;
        var own := schema == SCHEMA && version == c.version;
        s.(marker := Some(Marker(schema, version, c.id)), log := s.log + [Wrote(c.id, schema, version)],
           child := Some(c.(committed := c.committed || own)),
           lastCommitted := if own then Some(c.version) else s.lastCommitted)
    case BeginActivate(w) =>
      if !ChildAlive(s) || s.child.value.activating.Some? || w in s.quarantine then s
      else s.(previous := if s.current.Some? then s.current else s.previous,
              child := Some(s.child.value.(activating := Some(w))))
    case EndActivate =>
      if !ChildAlive(s) || s.child.value.activating.None? then s
      else s.(current := s.child.value.activating, child := Some(s.child.value.(activating := None)))
    case AskRestart =>
      if ChildAlive(s) then s.(pendingUpdate := true) else s
    case Exit =>
      if s.child.Some? then s.(alive := s.alive - {s.child.value.id}) else s
    case Cancel => s.(cancelled := true)
    case Deprovision => s.(deprovisioned := true)
    case ServiceRestart =>
      if s.pc.Returned? then s.(pc := Top, cancelled := false) else s
  }

  function Run(s: State, es: seq<Event>): State
    decreases |es|
  {
    if es == [] then s else Run(Next(s, es[0]), es[1..])
  }

  /** A launcher about to run, with any marker file an earlier boot may have left. */
  predicate Initial(s: State) {
    s.pc.Top? && s.alive == {} && s.child.None? && s.log == [] && s.lastCommitted.None?
  }

  // ---------- one child at a time, and only its own marker counts ----------

  predicate WithChild(pc: Pc) { pc.AwaitHealth? || pc.Steady? || pc.Stopping? }

  ghost predicate WroteAfterStart(log: seq<Act>, id: ChildId, v: Version) {
    exists i, j :: 0 <= i < j < |log| && log[i] == Spawned(id, v) && log[j] == Wrote(id, SCHEMA, v)
  }

  /** The launcher has concluded that the version is healthy. */
  predicate DeclaredHealthy(pc: Pc) {
    (pc.AwaitHealth? && pc.health.Healthy?) || pc.Steady? || (pc.Stopping? && pc.next.ThenRestart?)
  }

  ghost predicate ChildInv(s: State) {
    && (!WithChild(s.pc) ==> s.alive == {})
    && (WithChild(s.pc) ==>
          && s.child.Some? && s.child.value.version == s.pc.v
          && s.alive <= {s.child.value.id} && Spawned(s.child.value.id, s.pc.v) in s.log)
    && (s.pc.Spawning? ==> s.marker.None?)
    && (WithChild(s.pc) && s.marker.Some? ==>
          && s.marker.value.author == s.child.value.id
          && (Matches(s.marker, s.pc.v) ==> WroteAfterStart(s.log, s.child.value.id, s.pc.v)))
    && (DeclaredHealthy(s.pc) ==> WroteAfterStart(s.log, s.child.value.id, s.pc.v))
  }

  lemma LogGrows(log: seq<Act>, a: Act, id: ChildId, v: Version)
    ensures WroteAfterStart(log, id, v) ==> WroteAfterStart(log + [a], id, v)
    ensures Spawned(id, v) in log && a == Wrote(id, SCHEMA, v) ==> WroteAfterStart(log + [a], id, v)
  {
    var log' := log + [a];
    if WroteAfterStart(log, id, v) {
      var i, j :| 0 <= i < j < |log| && log[i] == Spawned(id, v) && log[j] == Wrote(id, SCHEMA, v);
      assert log'[i] == Spawned(id, v) && log'[j] == Wrote(id, SCHEMA, v);
    }
    if Spawned(id, v) in log && a == Wrote(id, SCHEMA, v) {
      var i :| 0 <= i < |log| && log[i] == Spawned(id, v);
      assert log'[i] == Spawned(id, v) && log'[|log|] == a;
    }
  }

  /** Events by who moves: starting a child, waiting for it, stopping and demoting, the rest. */
  predicate IsStart(e: Event) { e.Loop? || e.ResolveFails? || e.ClearMarker? || e.Spawn? }
  predicate IsWait(e: Event) {
    e.PollHealth? || e.Deadline? || e.SelectCancel? || e.SelectExit? || e.SelectHealth? || e.SelectTick?
  }
  predicate IsStop(e: Event) { e.Killed? || e.Stopped? }
  predicate IsDemote(e: Event) { e.Mark? || e.RollBack? }
  predicate IsActivate(e: Event) { e.BeginActivate? || e.EndActivate? }
  predicate IsQuiet(e: Event) { e.AskRestart? || e.Exit? || e.Cancel? || e.Deprovision? || e.ServiceRestart? }

  lemma ChildStart(s: State, e: Event)
    requires ChildInv(s) && IsStart(e)
    ensures ChildInv(Next(s, e))
  {
  }

  lemma ChildWait(s: State, e: Event)
    requires ChildInv(s) && IsWait(e)
    ensures ChildInv(Next(s, e))
  {
  }

  lemma ChildStop(s: State, e: Event)
    requires ChildInv(s) && IsStop(e)
    ensures ChildInv(Next(s, e))
  {
  }

  lemma ChildDemote(s: State, e: Event)
    requires ChildInv(s) && IsDemote(e)
    ensures ChildInv(Next(s, e))
  {
  }

  lemma ChildActivate(s: State, e: Event)
    requires ChildInv(s) && IsActivate(e)
    ensures ChildInv(Next(s, e))
  {
  }

  lemma ChildQuiet(s: State, e: Event)
    requires ChildInv(s) && IsQuiet(e)
    ensures ChildInv(Next(s, e))
  {
  }

  lemma ChildCommit(s: State, e: Event)
    requires ChildInv(s) && e.Commit?
    ensures ChildInv(Next(s, e))
  {
    if ChildAlive(s) {
      LogGrows(s.log, Wrote(s.child.value.id, e.schema, e.version), s.child.value.id, s.child.value.version);
    }
  }

  lemma ChildStep(s: State, e: Event)
    requires ChildInv(s)
    ensures ChildInv(Next(s, e))
  {
    if IsStart(e) { ChildStart(s, e); }
    else if IsWait(e) { ChildWait(s, e); }
    else if IsStop(e) { ChildStop(s, e); }
    else if IsDemote(e) { ChildDemote(s, e); }
    else if IsActivate(e) { ChildActivate(s, e); }
    else if IsQuiet(e) { ChildQuiet(s, e); }
    else { ChildCommit(s, e); }
  }

  lemma {:induction false} ChildRun(s: State, es: seq<Event>)
    requires ChildInv(s)
    ensures ChildInv(Run(s, es))
    decreases |es|
  {
    if es != [] {
      ChildStep(s, es[0]);
      ChildRun(Next(s, es[0]), es[1..]);
    }
  }

  /** In every run, at most one child is alive, and none once Run has returned. */
  lemma AtMostOneChild(s: State, es: seq<Event>)
    requires Initial(s)
    ensures var t := Run(s, es);
            (forall i, j :: i in t.alive && j in t.alive ==> i == j) && (t.pc.Returned? ==> t.alive == {})
  {
    ChildRun(s, es);
  }

  /** In every run, a version is declared healthy only when the child being supervised wrote a
      marker of the known schema with that version, after it was started. */
  lemma HealthIsTheChildsOwn(s: State, es: seq<Event>)
    requires Initial(s)
    ensures var t := Run(s, es);
            DeclaredHealthy(t.pc) ==>
              t.child.Some? && t.child.value.version == t.pc.v && WroteAfterStart(t.log, t.child.value.id, t.pc.v)
  {
    ChildRun(s, es);
  }

  // ---------- a deprovisioned agent ----------

  /** The agent is deprovisioned, and no start is under way. */
  predicate Halted(s: State) { s.deprovisioned && !s.pc.Starting? && !s.pc.Spawning? }

  predicate NoSpawnFrom(log: seq<Act>, n: nat) { forall i :: n <= i < |log| ==> !log[i].Spawned? }

  lemma HaltedStep(s: State, e: Event)
    requires Halted(s)
    ensures var t := Next(s, e);
            && Halted(t)
            && (t.log == s.log || (exists a: Act :: t.log == s.log + [a] && !a.Spawned?))
  {
  }

  /** In every run from there on, through any number of service restarts, no child is started. */
  lemma {:induction false} DeprovisionedNeverStarts(s: State, es: seq<Event>, n: nat)
    requires Halted(s) && n <= |s.log| && NoSpawnFrom(s.log, n)
    ensures Halted(Run(s, es)) && |s.log| <= |Run(s, es).log| && NoSpawnFrom(Run(s, es).log, n)
    decreases |es|
  {
    if es != [] {
      HaltedStep(s, es[0]);
      var t := Next(s, es[0]);
      DeprovisionedNeverStarts(t, es[1..], n);
    }
  }

  /** Where Run notices it: at the top, or when the child exits after deprovisioning itself. */
  lemma DeprovisionEndsRun(s: State)
    requires s.pc.Top? || (s.pc.AwaitHealth? || s.pc.Steady?)
    ensures s.pc.Top? ==> Next(Next(s, Deprovision), Loop).pc == Returned(CleanStop)
    ensures !s.pc.Top? && s.child.Some? ==> Next(Next(Next(s, Deprovision), Exit), SelectExit).pc == Returned(CleanStop)
  {
  }

  /** A stop asked for by the service manager ends Run with no child left, whatever the child is doing. */
  lemma CancelEndsRun(s: State)
    requires ChildInv(s) && (s.pc.AwaitHealth? || s.pc.Steady?)
    ensures var t := Next(Next(Next(Next(s, Cancel), SelectCancel), Killed), Stopped);
            t.pc == Returned(CleanStop) && t.alive == {} && t.quarantine == s.quarantine && t.current == s.current
  {
    var k := Next(Next(Next(s, Cancel), SelectCancel), Killed);
    assert k.pc.Stopping? && k.alive == {};
  }

  /** And the next service start runs the current version again, with the old stop request gone. */
  lemma ServiceRestartStartsCurrent(s: State, v: Version)
    requires ChildInv(s) && s.pc.Returned? && s.current == Some(v) && !s.deprovisioned
    ensures var t := Next(s, ServiceRestart); !t.cancelled && t.alive == {} && Next(t, Loop).pc == Starting(v)
    ensures Next(Next(s, ServiceRestart), ResolveFails).pc == Returned(NoCurrent)
  {
  }

  // ---------- what a quarantined version cannot do ----------

  /** w is quarantined, and neither pointer nor a pending activation names it. */
  predicate KeptOut(s: State, w: Version) {
    && w in s.quarantine && s.current != Some(w) && s.previous != Some(w)
    && (s.child.Some? ==> s.child.value.activating != Some(w))
  }

  lemma KeptOutPointers(s: State, e: Event, w: Version)
    requires KeptOut(s, w) && (IsActivate(e) || IsDemote(e))
    ensures KeptOut(Next(s, e), w)
  {
  }

  lemma KeptOutOther(s: State, e: Event, w: Version)
    requires KeptOut(s, w) && !IsActivate(e) && !IsDemote(e)
    ensures KeptOut(Next(s, e), w)
  {
  }

  lemma KeptOutStep(s: State, e: Event, w: Version)
    requires KeptOut(s, w)
    ensures KeptOut(Next(s, e), w)
  {
    if IsActivate(e) || IsDemote(e) { KeptOutPointers(s, e, w); } else { KeptOutOther(s, e, w); }
  }

  /** In every run it stays out: never current again, never started. */
  lemma {:induction false} QuarantinedStaysOut(s: State, es: seq<Event>, w: Version)
    requires KeptOut(s, w)
    ensures var t := Run(s, es);
            KeptOut(t, w) && (t.pc.Top? ==> Next(t, Loop).pc != Starting(w))
    decreases |es|
  {
    if es != [] {
      KeptOutStep(s, es[0], w);
      QuarantinedStaysOut(Next(s, es[0]), es[1..], w);
    }
  }

  // ---------- what gets a version quarantined ----------

  /** The select of superviseUntilHealthy goes against the version: it takes the child's exit or the
      missed deadline, with no shutdown and, on an exit, no deprovisioning. The marker does not count. */
  predicate DecidesAgainst(s: State, e: Event) {
    && s.pc.AwaitHealth? && !s.cancelled
    && ((e.SelectExit? && !ChildAlive(s) && !s.deprovisioned) || (e.SelectHealth? && s.pc.health.Missed?))
  }

  /** The versions some select of the run went against. */
  function RejectedIn(s: State, es: seq<Event>): set<Version>
    decreases |es|
  {
    if es == [] then {}
    else RejectedBy(s, es[0]) + RejectedIn(Next(s, es[0]), es[1..])
  }

  /** A version on its way to the quarantine mark. */
  function Condemned(pc: Pc): set<Version> {
    if (pc.Stopping? && pc.next.ThenDemote?) || pc.Demoting? then {pc.v} else {}
  }

  function RejectedBy(s: State, e: Event): set<Version> {
    if DecidesAgainst(s, e) then {s.pc.v} else {}
  }

  /** Quarantined, or about to be. */
  function Doomed(s: State): set<Version> { s.quarantine + Condemned(s.pc) }

  lemma QuarantineWait(s: State, e: Event)
    requires IsWait(e)
    ensures Doomed(Next(s, e)) == Doomed(s) + RejectedBy(s, e)
  {
  }

  lemma QuarantineDemote(s: State, e: Event)
    requires (IsStop(e) || IsDemote(e)) && e != Mark(false)
    ensures Doomed(Next(s, e)) == Doomed(s) && RejectedBy(s, e) == {}
  {
  }

  lemma QuarantineOther(s: State, e: Event)
    requires !IsWait(e) && !IsStop(e) && !IsDemote(e)
    ensures Doomed(Next(s, e)) == Doomed(s) && RejectedBy(s, e) == {}
  {
  }

  lemma QuarantineStep(s: State, e: Event)
    requires e != Mark(false)
    ensures Doomed(Next(s, e)) == Doomed(s) + RejectedBy(s, e)
  {
    if IsWait(e) { QuarantineWait(s, e); }
    else if IsStop(e) || IsDemote(e) { QuarantineDemote(s, e); }
    else { QuarantineOther(s, e); }
  }

  /** In every run whose quarantine marks can be written: a version ends up quarantined, or on its way
      there, exactly when it was before or a select went against it, whatever it had committed. */
  lemma {:induction false} QuarantineIsRejections(s: State, es: seq<Event>)
    requires Mark(false) !in es
    ensures Doomed(Run(s, es)) == Doomed(s) + RejectedIn(s, es)
    decreases |es|
  {
    if es != [] {
      QuarantineStep(s, es[0]);
      QuarantineIsRejections(Next(s, es[0]), es[1..]);
    }
  }

  // ---------- recovery over any number of bad updates ----------

  /** A version that may be bad is activated only over the child's own version. Good ones may also
      be activated over each other. */
  predicate SafeActivation(s: State, w: Version, good: set<Version>)
    requires s.child.Some?
  {
    s.current.Some? && s.current.value in good && (w in good || s.current == Some(s.child.value.version))
  }

  /** Only the versions in `good` ever commit health. A child activates only after it committed, and
      only as SafeActivation allows. */
  predicate Orderly(s: State, e: Event, good: set<Version>) {
    match e
    case Commit(schema, version) =>
      s.child.Some? && s.child.value.version !in good ==> !(schema == SCHEMA && version == s.child.value.version)
    case BeginActivate(w) =>
      s.child.Some? ==> s.child.value.committed && SafeActivation(s, w, good)
    case _ => true
  }

  predicate OrderlyRun(s: State, es: seq<Event>, good: set<Version>)
    decreases |es|
  {
    es == [] || (Orderly(s, es[0], good) && OrderlyRun(Next(s, es[0]), es[1..], good))
  }

  /** No select goes against a good version. */
  predicate Spares(s: State, e: Event, good: set<Version>) { DecidesAgainst(s, e) ==> s.pc.v !in good }

  /** A bad current is always backed by the version that committed last. */
  ghost predicate Backed(s: State, good: set<Version>) {
    && s.current.Some?
    && (s.current.value !in good ==>
          s.lastCommitted.Some? && s.lastCommitted.value in good && s.previous == s.lastCommitted)
  }

  ghost predicate CommitInv(s: State, good: set<Version>) {
    && (s.child.Some? && s.child.value.committed ==>
          s.child.value.version in good && s.lastCommitted == Some(s.child.value.version))
    && (ChildAlive(s) && s.child.value.activating.Some? ==>
          && s.child.value.committed && s.current == s.previous
          && SafeActivation(s, s.child.value.activating.value, good))
    && (WithChild(s.pc) && Matches(s.marker, s.pc.v) ==> s.child.Some? && s.child.value.committed)
    && (DeclaredHealthy(s.pc) ==> s.child.Some? && s.child.value.committed)
    && (WithChild(s.pc) && s.child.Some? && !s.child.value.committed ==> s.current == Some(s.pc.v))
  }

  ghost predicate PcInv(s: State, good: set<Version>) {
    match s.pc
    case Starting(v) => s.current == Some(v)
    case Spawning(v) => s.current == Some(v)
    case Stopping(v, next) => next.ThenDemote? ==> v !in good
    case Demoting(v) => v !in good && s.current == Some(v)
    case RollingBack(v) => v !in good && s.current == Some(v)
    case Returned(r) => r != NoLastKnownGood
    case _ => true
  }

  ghost predicate RecoveryInv(s: State, good: set<Version>) {
    && ChildInv(s)
    && s.quarantine !! good
    && Backed(s, good)
    && CommitInv(s, good)
    && PcInv(s, good)
  }

  lemma LoopKeeps(s: State, e: Event, good: set<Version>)
    requires RecoveryInv(s, good) && (e.Loop? || e.ResolveFails?)
    ensures var t := Next(s, e); t.quarantine !! good && Backed(t, good) && CommitInv(t, good) && PcInv(t, good)
  {
  }

  lemma ClearKeeps(s: State, good: set<Version>)
    requires RecoveryInv(s, good)
    ensures var t := Next(s, ClearMarker);
            t.quarantine !! good && Backed(t, good) && CommitInv(t, good) && PcInv(t, good)
  {
  }

  lemma SpawnKeeps(s: State, ok: bool, good: set<Version>)
    requires RecoveryInv(s, good)
    ensures var t := Next(s, Spawn(ok));
            t.quarantine !! good && Backed(t, good) && CommitInv(t, good) && PcInv(t, good)
  {
  }

  lemma WaitKeepsCommit(s: State, e: Event, good: set<Version>)
    requires RecoveryInv(s, good) && IsWait(e)
    ensures var t := Next(s, e); t.quarantine !! good && Backed(t, good) && CommitInv(t, good)
  {
  }

  lemma WaitKeepsPc(s: State, e: Event, good: set<Version>)
    requires RecoveryInv(s, good) && IsWait(e) && Spares(s, e, good)
    ensures PcInv(Next(s, e), good)
  {
  }

  lemma StopKeepsCommit(s: State, e: Event, good: set<Version>)
    requires RecoveryInv(s, good) && IsStop(e)
    ensures var t := Next(s, e); t.quarantine !! good && Backed(t, good) && CommitInv(t, good)
  {
  }

  lemma StopKeepsPc(s: State, e: Event, good: set<Version>)
    requires RecoveryInv(s, good) && IsStop(e)
    ensures PcInv(Next(s, e), good)
  {
  }

  lemma MarkKeeps(s: State, ok: bool, good: set<Version>)
    requires RecoveryInv(s, good)
    ensures var t := Next(s, Mark(ok));
            t.quarantine !! good && Backed(t, good) && CommitInv(t, good) && PcInv(t, good)
  {
  }

  lemma RollBackKeepsCommit(s: State, r: RollbackResult, good: set<Version>)
    requires RecoveryInv(s, good)
    ensures CommitInv(Next(s, RollBack(r)), good)
  {
  }

  lemma RollBackKeepsPc(s: State, r: RollbackResult, good: set<Version>)
    requires RecoveryInv(s, good)
    ensures var t := Next(s, RollBack(r)); t.quarantine !! good && Backed(t, good) && PcInv(t, good)
  {
  }

  lemma ActivateKeepsCommit(s: State, e: Event, good: set<Version>)
    requires RecoveryInv(s, good) && IsActivate(e) && Orderly(s, e, good)
    ensures CommitInv(Next(s, e), good)
  {
  }

  lemma ActivateKeepsPc(s: State, e: Event, good: set<Version>)
    requires RecoveryInv(s, good) && IsActivate(e) && Orderly(s, e, good)
    ensures var t := Next(s, e); t.quarantine !! good && Backed(t, good) && PcInv(t, good)
  {
  }

  lemma QuietKeeps(s: State, e: Event, good: set<Version>)
    requires RecoveryInv(s, good) && IsQuiet(e)
    ensures var t := Next(s, e); t.quarantine !! good && Backed(t, good) && CommitInv(t, good) && PcInv(t, good)
  {
  }

  lemma CommitKeeps(s: State, e: Event, good: set<Version>)
    requires RecoveryInv(s, good) && e.Commit? && Orderly(s, e, good)
    ensures var t := Next(s, e); t.quarantine !! good && Backed(t, good) && CommitInv(t, good) && PcInv(t, good)
  {
  }

  lemma RecoveryStep(s: State, e: Event, good: set<Version>)
    requires RecoveryInv(s, good) && Orderly(s, e, good) && Spares(s, e, good)
    ensures RecoveryInv(Next(s, e), good)
  {
    ChildStep(s, e);
    if e.Loop? || e.ResolveFails? { LoopKeeps(s, e, good); }
    else if e.ClearMarker? { ClearKeeps(s, good); }
    else if e.Spawn? { SpawnKeeps(s, e.ok, good); }
    else if IsWait(e) { WaitKeepsCommit(s, e, good); WaitKeepsPc(s, e, good); }
    else if IsStop(e) { StopKeepsCommit(s, e, good); StopKeepsPc(s, e, good); }
    else if e.Mark? { MarkKeeps(s, e.ok, good); }
    else if e.RollBack? { RollBackKeepsCommit(s, e.r, good); RollBackKeepsPc(s, e.r, good); }
    else if IsActivate(e) { ActivateKeepsCommit(s, e, good); ActivateKeepsPc(s, e, good); }
    else if IsQuiet(e) { QuietKeeps(s, e, good); }
    else { CommitKeeps(s, e, good); }
  }

  lemma {:induction false} RecoveryRun(s: State, es: seq<Event>, good: set<Version>)
    requires RecoveryInv(s, good) && OrderlyRun(s, es, good) && RejectedIn(s, es) !! good
    ensures RecoveryInv(Run(s, es), good)
    decreases |es|
  {
    if es != [] {
      RecoveryStep(s, es[0], good);
      RecoveryRun(Next(s, es[0]), es[1..], good);
    }
  }

  /** Seeded with a version that commits, and nothing good quarantined. */
  predicate Seeded(s: State, good: set<Version>) {
    Initial(s) && s.current.Some? && s.current.value in good && s.quarantine !! good
  }

  /** In every orderly run in which no select goes against a good version, over any number of bad
      updates: a rollback target is never missing, no good version is quarantined, and a version about
      to be rolled back is bad and backed by the good version that committed last. */
  lemma BadUpdatesAreBacked(s: State, es: seq<Event>, good: set<Version>)
    requires Seeded(s, good) && OrderlyRun(s, es, good) && RejectedIn(s, es) !! good
    ensures var t := Run(s, es);
            && t.pc != Returned(NoLastKnownGood)
            && t.quarantine !! good
            && (t.pc.RollingBack? ==>
                  && t.pc.v !in good
                  && t.lastCommitted.Some? && t.lastCommitted.value in good && t.previous == t.lastCommitted)
  {
    RecoveryRun(s, es, good);
  }

  // ---------- which version a run starts next ----------

  /** The rollback moves the current link. */
  predicate TakesEffect(s: State, e: Event) {
    s.pc.RollingBack? && s.previous.Some? && e.RollBack? && !e.r.Unmoved?
  }

  function RolledIn(s: State, es: seq<Event>): bool
    decreases |es|
  {
    es != [] && (TakesEffect(s, es[0]) || RolledIn(Next(s, es[0]), es[1..]))
  }

  /** No version is picked anywhere in the run. */
  predicate NoStartIn(s: State, es: seq<Event>)
    decreases |es|
  {
    es == [] || (!Next(s, es[0]).pc.Starting? && NoStartIn(Next(s, es[0]), es[1..]))
  }

  /** The attempt of the bad version w goes on, or has ended without moving current. */
  ghost predicate Attempting(s: State, w: Version, lc: Version) {
    && s.current == Some(w) && s.previous == Some(lc) && s.lastCommitted == Some(lc)
    && !s.pc.Starting? && !s.pc.Steady? && !DeclaredHealthy(s.pc)
    && (s.pc.Spawning? || s.pc.AwaitHealth? || s.pc.Stopping? || s.pc.Demoting? || s.pc.RollingBack? ==> s.pc.v == w)
    && (WithChild(s.pc) ==> s.child.Some? && !s.child.value.committed)
  }

  /** It was rolled back, and nothing was started since. */
  ghost predicate Recovered(s: State, lc: Version) {
    s.current == Some(lc) && s.lastCommitted == Some(lc) && (s.pc.Top? || s.pc.Returned?)
  }

  lemma AttemptStart(s: State, e: Event, w: Version, lc: Version, good: set<Version>)
    requires RecoveryInv(s, good) && Attempting(s, w, lc) && w !in good && IsStart(e) && !Next(s, e).pc.Starting?
    ensures Attempting(Next(s, e), w, lc)
  {
  }

  lemma AttemptWait(s: State, e: Event, w: Version, lc: Version, good: set<Version>)
    requires RecoveryInv(s, good) && Attempting(s, w, lc) && w !in good && (IsWait(e) || IsStop(e))
    ensures Attempting(Next(s, e), w, lc)
  {
  }

  lemma AttemptDemote(s: State, e: Event, w: Version, lc: Version)
    requires Attempting(s, w, lc) && IsDemote(e)
    ensures if TakesEffect(s, e) then Recovered(Next(s, e), lc) else Attempting(Next(s, e), w, lc)
  {
  }

  lemma AttemptChild(s: State, e: Event, w: Version, lc: Version, good: set<Version>)
    requires RecoveryInv(s, good) && Attempting(s, w, lc) && w !in good && Orderly(s, e, good)
    requires e.Commit? || IsActivate(e) || IsQuiet(e)
    ensures Attempting(Next(s, e), w, lc)
  {
  }

  lemma AttemptStep(s: State, e: Event, w: Version, lc: Version, good: set<Version>)
    requires RecoveryInv(s, good) && Attempting(s, w, lc) && w !in good && Orderly(s, e, good)
    requires !Next(s, e).pc.Starting?
    ensures if TakesEffect(s, e) then Recovered(Next(s, e), lc) else Attempting(Next(s, e), w, lc)
  {
    if IsStart(e) { AttemptStart(s, e, w, lc, good); }
    else if IsWait(e) || IsStop(e) { AttemptWait(s, e, w, lc, good); }
    else if IsDemote(e) { AttemptDemote(s, e, w, lc); }
    else { AttemptChild(s, e, w, lc, good); }
  }

  lemma RecoveredStep(s: State, e: Event, lc: Version)
    requires ChildInv(s) && Recovered(s, lc) && !Next(s, e).pc.Starting?
    ensures Recovered(Next(s, e), lc) && !TakesEffect(s, e)
  {
  }

  lemma {:induction false} RecoveredRun(s: State, es: seq<Event>, lc: Version)
    requires ChildInv(s) && Recovered(s, lc) && NoStartIn(s, es)
    ensures Recovered(Run(s, es), lc)
    decreases |es|
  {
    if es != [] {
      RecoveredStep(s, es[0], lc);
      ChildStep(s, es[0]);
      RecoveredRun(Next(s, es[0]), es[1..], lc);
    }
  }

  lemma {:induction false} AttemptRun(s: State, es: seq<Event>, w: Version, lc: Version, good: set<Version>)
    requires RecoveryInv(s, good) && Attempting(s, w, lc) && w !in good && NoStartIn(s, es)
    requires OrderlyRun(s, es, good) && RejectedIn(s, es) !! good
    ensures if RolledIn(s, es) then Recovered(Run(s, es), lc) else Attempting(Run(s, es), w, lc)
    decreases |es|
  {
    if es != [] {
      AttemptStep(s, es[0], w, lc, good);
      RecoveryStep(s, es[0], good);
      if TakesEffect(s, es[0]) {
        RecoveredRun(Next(s, es[0]), es[1..], lc);
      } else {
        AttemptRun(Next(s, es[0]), es[1..], w, lc, good);
      }
    }
  }

  /** Nothing has been decided against the version in hand. */
  predicate Unjudged(s: State, w: Version) {
    && !s.pc.Starting? && Condemned(s.pc) == {} && !s.pc.RollingBack?
    && (s.pc.Spawning? || s.pc.AwaitHealth? || s.pc.Steady? || s.pc.Stopping? ==> s.pc.v == w)
  }

  lemma UnjudgedStep(s: State, e: Event, w: Version)
    requires Unjudged(s, w) && !Next(s, e).pc.Starting?
    ensures !TakesEffect(s, e) && (DecidesAgainst(s, e) ==> s.pc.v == w)
    ensures !DecidesAgainst(s, e) ==> Unjudged(Next(s, e), w)
  {
  }

  /** Before a rollback takes effect, a select must have gone against the version. */
  lemma {:induction false} RollbackNeedsRejection(s: State, es: seq<Event>, w: Version)
    requires Unjudged(s, w) && NoStartIn(s, es) && RolledIn(s, es)
    ensures w in RejectedIn(s, es)
    decreases |es|
  {
    UnjudgedStep(s, es[0], w);
    if !DecidesAgainst(s, es[0]) { RollbackNeedsRejection(Next(s, es[0]), es[1..], w); }
  }

  /** A run that has come to spawn a bad version w, over any number of earlier updates, and then goes on,
      through failed starts, returns and service restarts, until the next version is picked: that is
      the good version that committed last if and only if a select went against w and its rollback
      took effect; otherwise it is w again. */
  lemma NextStartIff(s: State, es0: seq<Event>, es: seq<Event>, good: set<Version>)
    requires Seeded(s, good) && OrderlyRun(s, es0, good) && RejectedIn(s, es0) !! good
    requires var a := Run(s, es0);
             && a.pc.Spawning? && a.pc.v !in good
             && OrderlyRun(a, es, good) && RejectedIn(a, es) !! good && NoStartIn(a, es)
             && Next(Run(a, es), Loop).pc.Starting?
    ensures var a := Run(s, es0);
            var w, next := a.pc.v, Next(Run(a, es), Loop).pc.v;
            && a.lastCommitted.Some? && a.lastCommitted.value in good
            && Run(a, es).lastCommitted == a.lastCommitted
            && next == (if RolledIn(a, es) then a.lastCommitted.value else w)
            && (RolledIn(a, es) ==> w in RejectedIn(a, es))
  {
    RecoveryRun(s, es0, good);
    var a := Run(s, es0);
    AttemptRun(a, es, a.pc.v, a.lastCommitted.value, good);
    if RolledIn(a, es) { RollbackNeedsRejection(a, es, a.pc.v); }
  }

  /** And that guard is exact: of any run whose marks can be written, at any moment when no version
      waits for its mark, no good version is quarantined if and only if no select went against one. */
  lemma GoodIsSparedIff(s: State, es: seq<Event>, good: set<Version>)
    requires Seeded(s, good) && Mark(false) !in es && Condemned(Run(s, es).pc) == {}
    ensures Run(s, es).quarantine !! good <==> RejectedIn(s, es) !! good
  {
    QuarantineIsRejections(s, es);
  }

  // ---------- a committed version can still lose the race ----------

  function Three(a: Event, b: Event, c: Event): seq<Event> { [a, b, c] }

  lemma RunThree(s: State, a: Event, b: Event, c: Event)
    ensures Run(s, Three(a, b, c)) == Next(Next(Next(s, a), b), c)
  {
    var s1 := Next(s, a);
    var s2 := Next(s1, b);
    assert [a, b, c][1..] == [b, c] && [b, c][1..] == [c] && [c][1..] == [];
    assert Run(s1, [b, c]) == Run(s2, [c]);
    assert Run(s2, [c]) == Run(Next(s2, c), []);
  }

  lemma {:induction false} RunAppend(s: State, es: seq<Event>, fs: seq<Event>)
    ensures Run(s, es + fs) == Run(Run(s, es), fs)
    decreases |es|
  {
    if es == [] {
      assert es + fs == fs;
    } else {
      assert (es + fs)[1..] == es[1..] + fs;
      RunAppend(Next(s, es[0]), es[1..], fs);
    }
  }

  function StartUp(): seq<Event> { Three(Loop, ClearMarker, Spawn(true)) }

  /** About to start v, undisturbed. */
  predicate Ready(s: State, v: Version) {
    s.pc.Top? && s.alive == {} && !s.cancelled && !s.deprovisioned && s.current == Some(v)
  }

  /** v's child runs and has committed. */
  predicate Committed(s: State, v: Version) {
    && s.child.Some? && s.child.value == Child(s.child.value.id, v, true, None) && s.alive == {s.child.value.id}
    && s.lastCommitted == Some(v) && Matches(s.marker, v) && !s.cancelled && !s.deprovisioned
  }

  lemma StartUpRuns(s: State, v: Version)
    requires Ready(s, v)
    ensures var t := Run(s, StartUp());
            t == s.(pc := AwaitHealth(v, Pending), alive := {s.nextId}, nextId := s.nextId + 1, marker := None,
                    child := Some(Child(s.nextId, v, false, None)), log := s.log + [Spawned(s.nextId, v)])
  {
    RunThree(s, Loop, ClearMarker, Spawn(true));
    var s1 := Next(s, Loop);
    var s2 := Next(s1, ClearMarker);
    assert s1.pc == Starting(v) && s2.pc == Spawning(v);
    assert s.alive + {s.nextId} == {s.nextId};
  }

  function CommitUp(v: Version): seq<Event> { StartUp() + [Commit(SCHEMA, v)] }

  lemma RunOne(s: State, e: Event)
    ensures Run(s, [e]) == Next(s, e)
  {
    assert [e][1..] == [];
    assert Run(s, [e]) == Run(Next(s, e), []);
  }

  lemma CommitUpRuns(s: State, v: Version)
    requires Ready(s, v)
    ensures var t := Run(s, CommitUp(v));
            && t.pc == AwaitHealth(v, Pending) && Committed(t, v)
            && t.current == s.current && t.previous == s.previous && t.quarantine == s.quarantine
  {
    RunAppend(s, StartUp(), [Commit(SCHEMA, v)]);
    StartUpRuns(s, v);
    RunOne(Run(s, StartUp()), Commit(SCHEMA, v));
  }

  /** The child commits, the watcher has even seen it, the child exits, and the select takes the exit. */
  function ExitRace(v: Version): seq<Event> {
    CommitUp(v) + (Three(PollHealth, Exit, SelectExit) + [Mark(true)])
  }

  /** The child commits between two polls, and the deadline fires before the second. */
  function DeadlineRace(v: Version): seq<Event> {
    CommitUp(v) + ([Deadline] + (Three(SelectHealth, Killed, Stopped) + [Mark(true)]))
  }

  /** Demoted although committed: the version is quarantined, and with nothing to fall back to the
      launcher gives up. */
  predicate DemotedThoughCommitted(t: State, s: State, v: Version) {
    && t.lastCommitted == Some(v) && v in t.quarantine && t.pc == RollingBack(v)
    && (s.previous.None? ==> Next(t, RollBack(Rolled)).pc == Returned(NoLastKnownGood))
  }

  lemma ExitWins(c: State, v: Version)
    requires c.pc == AwaitHealth(v, Pending) && Committed(c, v)
    ensures var t := Next(Next(Next(c, PollHealth), Exit), SelectExit);
            t == c.(pc := Demoting(v), alive := {}) && Next(c, PollHealth).pc == AwaitHealth(v, Healthy)
  {
    var c2 := Next(Next(c, PollHealth), Exit);
    assert c2.pc == AwaitHealth(v, Healthy) && c2.alive == {};
  }

  lemma DeadlineWins(d: State, v: Version)
    requires d.pc == AwaitHealth(v, Missed) && Committed(d, v)
    ensures Next(Next(Next(d, SelectHealth), Killed), Stopped) == d.(pc := Demoting(v), alive := {})
  {
    var k := Next(Next(d, SelectHealth), Killed);
    assert k.pc == Stopping(v, ThenDemote) && k.alive == {};
  }

  lemma CommittedVersionLosesToExit(s: State, v: Version)
    requires Ready(s, v)
    ensures DemotedThoughCommitted(Run(s, ExitRace(v)), s, v)
  {
    RunAppend(s, CommitUp(v), Three(PollHealth, Exit, SelectExit) + [Mark(true)]);
    CommitUpRuns(s, v);
    var c := Run(s, CommitUp(v));
    RunAppend(c, Three(PollHealth, Exit, SelectExit), [Mark(true)]);
    RunThree(c, PollHealth, Exit, SelectExit);
    ExitWins(c, v);
    RunOne(c.(pc := Demoting(v), alive := {}), Mark(true));
  }

  lemma CommittedVersionLosesToDeadline(s: State, v: Version)
    requires Ready(s, v)
    ensures DemotedThoughCommitted(Run(s, DeadlineRace(v)), s, v)
  {
    RunAppend(s, CommitUp(v), [Deadline] + (Three(SelectHealth, Killed, Stopped) + [Mark(true)]));
    CommitUpRuns(s, v);
    var c := Run(s, CommitUp(v));
    RunAppend(c, [Deadline], Three(SelectHealth, Killed, Stopped) + [Mark(true)]);
    RunOne(c, Deadline);
    var d := Next(c, Deadline);
    RunAppend(d, Three(SelectHealth, Killed, Stopped), [Mark(true)]);
    RunThree(d, SelectHealth, Killed, Stopped);
    DeadlineWins(d, v);
    RunOne(d.(pc := Demoting(v), alive := {}), Mark(true));
  }

  // ---------- which activations are safe ----------

  /** SafeActivation is exact: an activation by a committed child, cut short or complete, keeps a
      bad current backed by the version that committed last if and only if it is safe. */
  lemma ActivationKeepsBackingIff(s: State, w: Version, good: set<Version>)
    requires ChildAlive(s) && s.child.value.activating.None? && w !in s.quarantine
    requires s.child.value.version in good && s.lastCommitted == Some(s.child.value.version) && s.current.Some?
    ensures var mid := Next(s, BeginActivate(w));
            Backed(mid, good) && Backed(Next(mid, EndActivate), good) <==> SafeActivation(s, w, good)
  {
    var mid := Next(s, BeginActivate(w));
    assert mid.previous == mid.current == s.current;
    assert Next(mid, EndActivate).current == Some(w) && Next(mid, EndActivate).previous == s.current;
  }

  lemma RunCons(s: State, e: Event, es: seq<Event>)
    ensures Run(s, [e] + es) == Run(Next(s, e), es)
  {
    assert ([e] + es)[1..] == es;
  }

  /** One complete activation by the child. */
  function Activated(s: State, w: Version): State { Next(Next(s, BeginActivate(w)), EndActivate) }

  lemma ActivatedEffect(s: State, w: Version)
    requires ChildAlive(s) && s.child.value.activating.None? && w !in s.quarantine && s.current.Some?
    ensures var t := Activated(s, w);
            t == s.(current := Some(w), previous := s.current)
  {
    var mid := Next(s, BeginActivate(w));
    assert ChildAlive(mid) && mid.child.value.activating == Some(w);
    assert mid.child.value.(activating := None) == s.child.value;
  }

  function Activation(w: Version): seq<Event> { [BeginActivate(w)] + ([EndActivate] + []) }

  lemma ActivationRuns(s: State, w: Version)
    ensures Run(s, Activation(w)) == Activated(s, w)
  {
    RunCons(s, BeginActivate(w), [EndActivate] + []);
    RunCons(Next(s, BeginActivate(w)), EndActivate, []);
  }

  /** A child that activates w, and activates w again before it is restarted: the second time w
      does not differ from current, and previous becomes w itself. */
  lemma SecondActivationLosesPrevious(s: State, w: Version)
    requires ChildAlive(s) && s.child.value.activating.None? && w !in s.quarantine && s.current.Some?
    ensures var t := Run(Run(s, Activation(w)), Activation(w));
            t.current == t.previous == Some(w)
  {
    ActivationRuns(s, w);
    ActivatedEffect(s, w);
    ActivationRuns(Activated(s, w), w);
    ActivatedEffect(Activated(s, w), w);
  }

  /** One failed start: spawn, exit before health, demote, roll back. */
  function FailedStart(s: State): State {
    var up := Next(Next(Next(s, Loop), ClearMarker), Spawn(true));
    Next(Next(Next(Next(up, Exit), SelectExit), Mark(true)), RollBack(Rolled))
  }

  function Iterate(f: State -> State, s: State, n: nat): State
    decreases n
  {
    if n == 0 then s else Iterate(f, f(s), n - 1)
  }

  /** The launcher is about to start w, with nothing but w to fall back to. */
  predicate Trapped(s: State, w: Version) {
    s.pc.Top? && s.alive == {} && !s.cancelled && !s.deprovisioned && s.current == Some(w) && s.previous == Some(w)
  }

  function HealthyStart(v: Version): seq<Event> { CommitUp(v) + Three(PollHealth, SelectHealth, AskRestart) }

  function Restart(): seq<Event> { Three(SelectTick, Killed, Stopped) }

  /** So one healthy child that activates w twice, and is then restarted, traps the launcher. */
  lemma SecondActivationTraps(s: State, v: Version, w: Version)
    requires Ready(s, v) && w !in s.quarantine
    ensures Trapped(Run(s, HealthyStart(v) + (Activation(w) + (Activation(w) + Restart()))), w)
  {
    RunAppend(s, HealthyStart(v), Activation(w) + (Activation(w) + Restart()));
    HealthyStartRuns(s, v);
    var h := Run(s, HealthyStart(v));
    RunAppend(h, Activation(w), Activation(w) + Restart());
    ActivationRuns(h, w);
    ActivatedEffect(h, w);
    var a := Activated(h, w);
    RunAppend(a, Activation(w), Restart());
    ActivationRuns(a, w);
    ActivatedEffect(a, w);
    RestartRuns(Activated(a, w), v);
  }

  lemma HealthyStartRuns(s: State, v: Version)
    requires Ready(s, v)
    ensures var t := Run(s, HealthyStart(v));
            && t.pc == Steady(v) && Committed(t, v) && t.pendingUpdate
            && t.current == s.current && t.quarantine == s.quarantine
  {
    RunAppend(s, CommitUp(v), Three(PollHealth, SelectHealth, AskRestart));
    CommitUpRuns(s, v);
    var c := Run(s, CommitUp(v));
    RunThree(c, PollHealth, SelectHealth, AskRestart);
    assert Next(c, PollHealth).pc == AwaitHealth(v, Healthy);
  }

  lemma RestartRuns(s: State, v: Version)
    requires s.pc == Steady(v) && s.pendingUpdate && s.child.Some? && s.alive == {s.child.value.id}
    ensures Run(s, Restart()) == s.(pc := Top, alive := {}, pendingUpdate := false)
  {
    RunThree(s, SelectTick, Killed, Stopped);
    var k := Next(Next(s, SelectTick), Killed);
    assert k.pc == Stopping(v, ThenRestart) && k.alive == {};
  }

  // ---------- a version that cannot be started ----------

  /** The start fails, Run returns its error, and the service manager runs the launcher again. */
  function FailedSpawn(): seq<Event> { Three(Loop, ClearMarker, Spawn(false)) + [ServiceRestart] }

  lemma FailedSpawnRuns(s: State, w: Version)
    requires Ready(s, w)
    ensures Run(s, FailedSpawn()) == s.(marker := None) && RejectedIn(s, FailedSpawn()) == {}
  {
    RunAppend(s, Three(Loop, ClearMarker, Spawn(false)), [ServiceRestart]);
    RunThree(s, Loop, ClearMarker, Spawn(false));
    var s3 := Next(Next(Next(s, Loop), ClearMarker), Spawn(false));
    assert s3.pc == Returned(StartFailed);
    RunOne(s3, ServiceRestart);
    FailedSpawnSpares(s, w);
  }

  lemma FailedSpawnSpares(s: State, w: Version)
    requires Ready(s, w)
    ensures RejectedIn(s, FailedSpawn()) == {}
  {
    var es := FailedSpawn();
    var s1 := Next(s, es[0]);
    var s2 := Next(s1, es[1]);
    var s3 := Next(s2, es[2]);
    assert es[1..][0] == es[1] && es[1..][1..] == es[2..] && es[2..][1..] == es[3..] && es[3..][1..] == [];
    assert RejectedIn(s3, es[3..]) == RejectedBy(s3, es[3]) + RejectedIn(Next(s3, es[3]), []);
    assert RejectedIn(s2, es[2..]) == RejectedBy(s2, es[2]) + RejectedIn(s3, es[3..]);
    assert RejectedIn(s1, es[1..]) == RejectedBy(s1, es[1]) + RejectedIn(s2, es[2..]);
  }

  function Repeated(es: seq<Event>, n: nat): seq<Event> { if n == 0 then [] else es + Repeated(es, n - 1) }

  /** However often: nothing is quarantined, nothing rolled back, and the same version is tried again. */
  lemma {:induction false} UnstartableIsRetried(s: State, w: Version, n: nat)
    requires Ready(s, w)
    ensures var t := Run(s, Repeated(FailedSpawn(), n));
            && t == (if n == 0 then s else s.(marker := None))
            && Next(t, Loop).pc == Starting(w)
    decreases n
  {
    if n > 0 {
      RunAppend(s, FailedSpawn(), Repeated(FailedSpawn(), n - 1));
      FailedSpawnRuns(s, w);
      UnstartableIsRetried(s.(marker := None), w, n - 1);
    }
  }

  /** A healthy child activates w once and safely, is restarted, and w cannot be started: w is tried
      without end, although the version that committed last is there to go back to. */
  lemma UnstartableUpdateIsRetried(s: State, v: Version, w: Version, n: nat)
    requires Ready(s, v) && w !in s.quarantine
    ensures var t := Run(s, HealthyStart(v) + (Activation(w) + (Restart() + Repeated(FailedSpawn(), n))));
            && Next(t, Loop).pc == Starting(w) && t.quarantine == s.quarantine
            && t.previous == t.lastCommitted == Some(v)
  {
    var rest := Repeated(FailedSpawn(), n);
    RunAppend(s, HealthyStart(v), Activation(w) + (Restart() + rest));
    HealthyStartRuns(s, v);
    var h := Run(s, HealthyStart(v));
    RunAppend(h, Activation(w), Restart() + rest);
    ActivationRuns(h, w);
    ActivatedEffect(h, w);
    RunAppend(Activated(h, w), Restart(), rest);
    RestartRuns(Activated(h, w), v);
    UnstartableIsRetried(Run(Activated(h, w), Restart()), w, n);
  }

  /** So it is after a rollback that fails before it moves anything. */
  lemma FailedRollbackRetries(s: State, w: Version)
    requires s.pc == RollingBack(w) && s.current == Some(w) && s.previous.Some? && !s.deprovisioned
    ensures Next(Next(Next(s, RollBack(Unmoved)), ServiceRestart), Loop).pc == Starting(w)
  {
  }

  ghost predicate StaysTrapped(f: State -> State, w: Version) {
    forall s :: Trapped(s, w) ==> Trapped(f(s), w) && w in f(s).quarantine
  }

  lemma TrappedStep(s: State, w: Version)
    requires Trapped(s, w)
    ensures Trapped(FailedStart(s), w) && w in FailedStart(s).quarantine
  {
    StartUpRuns(s, w);
    RunThree(s, Loop, ClearMarker, Spawn(true));
    var up := Run(s, StartUp());
    assert Next(up, Exit).alive == {};
    assert Next(Next(up, Exit), SelectExit).pc == Demoting(w);
  }

  lemma {:induction false} IterateTrapped(f: State -> State, s: State, w: Version, n: nat)
    requires Trapped(s, w) && StaysTrapped(f, w)
    ensures Trapped(Iterate(f, s, n), w)
    ensures n > 0 || w in s.quarantine ==> w in Iterate(f, s, n).quarantine
    decreases n
  {
    if n > 0 { IterateTrapped(f, f(s), w, n - 1); }
  }

  /** Then every rollback returns to the quarantined w, however often it fails. */
  lemma TrappedForever(s: State, w: Version, n: nat)
    requires Trapped(s, w)
    ensures Trapped(Iterate(FailedStart, s, n), w)
    ensures n > 0 ==> w in Iterate(FailedStart, s, n).quarantine
  {
    forall s | Trapped(s, w) ensures Trapped(FailedStart(s), w) && w in FailedStart(s).quarantine {
      TrappedStep(s, w);
    }
    IterateTrapped(FailedStart, s, w, n);
  }

  // ---------- the launcher's own code ----------

  /** demoteBadVersion and consumePendingUpdate, on the payload store and the marker file. */
  class Supervisor {
    const store: P.Store
    var pendingUpdate: bool

    constructor (store: P.Store)
      ensures this.store == store && !pendingUpdate
    {
      this.store := store;
      pendingUpdate := false;
    }

    method ConsumePendingUpdate() returns (found: bool)
      modifies this`pendingUpdate
      ensures found == old(pendingUpdate) && !pendingUpdate
    {
      if !pendingUpdate { return false; }
      pendingUpdate := false;
      return true;
    }

    /** Quarantine the failed version (a failure to do so is only logged), then roll back. */
    method DemoteBadVersion(v: Version, reliable: bool, ghost offers: P.Offers) returns (ok: bool)
      requires P.Inv(store.fs, offers)
      modifies store
      ensures P.Inv(store.fs, offers) && P.Keeps(old(store.fs), store.fs)
      ensures ok ==>
        && P.Previous in old(store.fs).links && P.Current in store.fs.links
        && store.fs.links[P.Current] == old(store.fs).links[P.Previous]
      ensures P.Previous !in old(store.fs).links ==> !ok && store.fs.links == old(store.fs).links
      ensures reliable && P.Previous in old(store.fs).links ==> ok
      ensures reliable && P.ValidVersion(v) ==> v in store.fs.quarantine
    {
      ghost var before := store.fs;
      ghost var a, b;
      var marked;
      marked, a := store.Quarantine(v, reliable);
      P.AttemptKeeps(before, a, offers);
      P.QuarantineKeepsLinks(before, a);
      ghost var mid := store.fs;
      var r;
      r, b := store.Rollback(reliable);
      P.AttemptKeeps(mid, b, offers);
      ok := r.Some?;
      if ok { P.RollbackDone(mid, b, offers); }
    }

    /** applyUpdate: refuse a quarantined version, stage, activate, then ask for the restart. */
    method ApplyUpdate(v: Version, nonce: nat, download: Option<seq<P.Chunk>>, markerOk: bool, reliable: bool,
                       ghost offers: P.Offers)
      returns (ok: bool)
      requires P.Inv(store.fs, offers)
      modifies this`pendingUpdate, store
      ensures download.Some? ==> P.Inv(store.fs, offers + {(v, download.value)})
      ensures v in old(store.fs).quarantine || download.None? ==> !ok && store.fs == old(store.fs)
      ensures P.Keeps(old(store.fs), store.fs)
      ensures pendingUpdate ==> ok || old(pendingUpdate)
      ensures ok ==> pendingUpdate && P.Resolves(store.fs, P.Current, offers + {(v, download.value)})
      ensures ok ==> store.fs.links[P.Current] == v
      ensures reliable && markerOk && download.Some? && P.CanStage(old(store.fs), v, nonce) ==> ok
    {
      if v in store.fs.quarantine { return false; }
      if download.None? { return false; }
      ghost var before := store.fs;
      ghost var all := offers + {(v, download.value)};
      ghost var a, b;
      ok, a := store.Stage(v, nonce, download.value, reliable);
      P.AttemptKeeps(before, a, offers);
      if !ok { return; }
      P.CompleteAttempt(before, a);
      P.StageCompletes(before, v, nonce, download.value);
      ghost var mid := store.fs;
      ok, b := store.Activate(v, reliable);
      P.AttemptKeeps(mid, b, all);
      if !ok { return; }
      P.ActivateDone(mid, b, v, all);
      if !markerOk { return false; }
      pendingUpdate := true;
    }
  }
}
