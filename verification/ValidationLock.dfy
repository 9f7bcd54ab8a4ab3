/** internal/validate/lock.go: the validation lockfile, with exclusive create, write, read and
    remove as separate steps of any number of processes. */
module ValidationLock {
  import opened Text

  type Pid = nat
  type Token = nat

  /** The lockfile: who created it, with which token, and whether the lock info is written yet. */
  datatype File = File(owner: Pid, token: Token, full: bool)

  /** Where a process is inside AcquireLock or Release. */
  datatype Phase =
    | Idle(spent: Option<Token>)               // outside; `spent` is a lock it has released
    | Creating(tok: Token, retried: bool)      // tryCreateLock, before the exclusive create
    | Writing(tok: Token)                      // created, lock info not written
    | Unwinding(tok: Token)                    // write failed, file not yet removed
    | Reading(tok: Token)                      // breakIfStale, before its read
    | Judging(tok: Token, seen: File)
    | Comparing(tok: Token, seen: File)        // judged stale: removeIfUnchanged, before its read
    | Removing(tok: Token, seen: File)         // contents matched, before the remove
    | Holding(tok: Token)
    | RelReading(tok: Token, again: bool)      // Release, before its read; `again`: not the first
    | RelRemoving(tok: Token, again: bool)

  datatype State = State(file: Option<File>, phases: map<Pid, Phase>, dead: set<Pid>, next: Token)

  datatype Step =
    | Begin | Create | GiveUp | Write(ok: bool) | Unwind
    | Read | Judge(stale: bool) | Recheck | Remove
    | Release | RelRead | RelRemove | ReleaseAgain | Die

  datatype Event = Event(i: Pid, step: Step)

  function P(s: State, i: Pid): Phase { if i in s.phases then s.phases[i] else Idle(None) }

  function To(s: State, i: Pid, ph: Phase): State { s.(phases := s.phases[i := ph]) }

  function Filled(file: Option<File>, i: Pid, tok: Token): Option<File> {
    if file == Some(File(i, tok, false)) then Some(File(i, tok, true)) else file
  }

  function Next(s: State, e: Event): State {
    var i := e.i;
    var ph := P(s, i);
    if i in s.dead then s else
    match e.step
    case Begin => if ph.Idle? then To(s, i, Creating(s.next, false)).(next := s.next + 1) else s
    case Create =>
      if !ph.Creating? then s
      else if s.file.None? then To(s, i, Writing(ph.tok)).(file := Some(File(i, ph.tok, false)))
      else if ph.retried then To(s, i, Idle(None))
      else To(s, i, Reading(ph.tok))
    case GiveUp => if ph.Creating? then To(s, i, Idle(None)) else s
    case Write(ok) =>
      if !ph.Writing? then s
      else if !ok then To(s, i, Unwinding(ph.tok))
      // an unlinked file still takes the bytes, but not the path
      else To(s, i, Holding(ph.tok)).(file := Filled(s.file, i, ph.tok))
    case Unwind => if ph.Unwinding? then To(s, i, Idle(None)).(file := None) else s
    case Read =>
      if !ph.Reading? then s
      else if s.file.Some? && s.file.value.full then To(s, i, Judging(ph.tok, s.file.value))
      else To(s, i, Idle(None))
    case Judge(stale) =>
      if !ph.Judging? then s
      else if stale then To(s, i, Comparing(ph.tok, ph.seen))
      else To(s, i, Idle(None))
    case Recheck =>
      if !ph.Comparing? then s
      else if s.file == Some(ph.seen) then To(s, i, Removing(ph.tok, ph.seen))
      else To(s, i, Idle(None))
    case Remove =>
      if !ph.Removing? then s
      else if s.file.Some? then To(s, i, Creating(ph.tok, true)).(file := None)
      else To(s, i, Idle(None))
    case Release => if ph.Holding? then To(s, i, RelReading(ph.tok, false)) else s
    case ReleaseAgain => if ph.Idle? && ph.spent.Some? then To(s, i, RelReading(ph.spent.value, true)) else s
    case RelRead =>
      if !ph.RelReading? then s
      else if s.file.None? || (s.file.value.full && s.file.value.token != ph.tok) then To(s, i, Idle(Some(ph.tok)))
      else To(s, i, RelRemoving(ph.tok, ph.again))
    case RelRemove => if ph.RelRemoving? then To(s, i, Idle(Some(ph.tok))).(file := None) else s
    case Die => s.(dead := s.dead + {i})
  }

  function Run(s: State, es: seq<Event>): State
    decreases |es|
  {
    if es == [] then s else Run(Next(s, es[0]), es[1..])
  }

  // ---------- what the environment must promise ----------

  predicate Live(s: State, i: Pid) { i !in s.dead }

  /** A file read by a repeated Release must not be one that is still being written. */
  predicate HalfWritten(file: Option<File>) { file.Some? && !file.value.full }

  ghost predicate OthersRemoving(s: State, i: Pid) {
    exists j :: j != i && Live(s, j) && P(s, j).Removing?
  }

  /** Only a dead holder's lock is judged stale; two stale breaks are never both between the
      matching re-read and the remove; a repeated Release does not read a half-written file. */
  ghost predicate Disciplined(s: State, e: Event) {
    var ph := P(s, e.i);
    match e.step
    case Judge(stale) => ph.Judging? && stale ==> ph.seen.owner in s.dead
    case Recheck => ph.Comparing? && s.file == Some(ph.seen) ==> !OthersRemoving(s, e.i)
    case RelRead => ph.RelReading? && ph.again ==> !HalfWritten(s.file)
    case _ => true
  }

  ghost predicate DisciplinedRun(s: State, es: seq<Event>)
    decreases |es|
  {
    es == [] || (Disciplined(s, es[0]) && DisciplinedRun(Next(s, es[0]), es[1..]))
  }

  // ---------- the invariant ----------

  /** From its exclusive create until its release is done, a process owns the lockfile. */
  predicate Owns(ph: Phase) {
    || ph.Writing? || ph.Unwinding? || ph.Holding?
    || ((ph.RelReading? || ph.RelRemoving?) && !ph.again)
  }

  predicate Written(ph: Phase) { ph.Holding? || ph.RelReading? || ph.RelRemoving? }

  function TokenOf(ph: Phase): Option<Token> { if ph.Idle? then ph.spent else Some(ph.tok) }

  predicate PhaseOk(s: State, i: Pid) {
    var ph := P(s, i);
    && (Owns(ph) && Live(s, i) ==> s.file == Some(File(i, ph.tok, Written(ph))))
    && (ph.Removing? && Live(s, i) ==> ph.seen.owner in s.dead && ph.seen.full && s.file == Some(ph.seen))
    && (ph.Comparing? ==> ph.seen.owner in s.dead && ph.seen.full)
    && (ph.Judging? ==> ph.seen.full)
    && (ph.RelRemoving? && Live(s, i) ==> !ph.again)
    && (TokenOf(ph).Some? ==> TokenOf(ph).value < s.next)
  }

  ghost predicate FileOk(s: State) {
    s.file.Some? ==> Owns(P(s, s.file.value.owner)) && TokenOf(P(s, s.file.value.owner)) == Some(s.file.value.token)
  }

  ghost predicate DistinctTokens(s: State) {
    forall i, j :: i != j && TokenOf(P(s, i)).Some? ==> TokenOf(P(s, i)) != TokenOf(P(s, j))
  }

  ghost predicate OneRemover(s: State) {
    forall i, j :: Live(s, i) && Live(s, j) && P(s, i).Removing? && P(s, j).Removing? ==> i == j
  }

  ghost predicate Inv(s: State) {
    (forall i :: PhaseOk(s, i)) && FileOk(s) && DistinctTokens(s) && OneRemover(s)
  }

  lemma OthersStay(s: State, e: Event, j: Pid)
    requires j != e.i
    ensures P(Next(s, e), j) == P(s, j) && (Live(Next(s, e), j) <==> Live(s, j))
  {
  }

  lemma OwnToken(s: State, e: Event)
    ensures var k := TokenOf(P(Next(s, e), e.i)); k.None? || k == TokenOf(P(s, e.i)) || k == Some(s.next)
  {
  }

  lemma TokensStep(s: State, e: Event)
    requires Inv(s)
    ensures DistinctTokens(Next(s, e))
  {
    var t := Next(s, e);
    OwnToken(s, e);
    forall i, j | i != j && TokenOf(P(t, i)).Some? ensures TokenOf(P(t, i)) != TokenOf(P(t, j)) {
      assert PhaseOk(s, i) && PhaseOk(s, j);
      if i != e.i { OthersStay(s, e, i); }
      if j != e.i { OthersStay(s, e, j); }
    }
  }

  lemma BecomesRemover(s: State, e: Event)
    requires P(Next(s, e), e.i).Removing? && !P(s, e.i).Removing? && Disciplined(s, e)
    ensures !OthersRemoving(s, e.i)
  {
  }

  lemma RemoverStep(s: State, e: Event)
    requires OneRemover(s) && Disciplined(s, e)
    ensures OneRemover(Next(s, e))
  {
    var t := Next(s, e);
    if P(t, e.i).Removing? && !P(s, e.i).Removing? { BecomesRemover(s, e); }
    forall i, j | Live(t, i) && Live(t, j) && P(t, i).Removing? && P(t, j).Removing? ensures i == j {
      if i != e.i { OthersStay(s, e, i); }
      if j != e.i { OthersStay(s, e, j); }
    }
  }

  lemma FileStep(s: State, e: Event)
    requires Inv(s) && Disciplined(s, e)
    ensures FileOk(Next(s, e))
  {
    assert PhaseOk(s, e.i);
  }

  lemma OwnPhase(s: State, e: Event)
    requires Inv(s) && Disciplined(s, e)
    ensures PhaseOk(Next(s, e), e.i)
  {
    assert PhaseOk(s, e.i);
  }

  /** A file that is removed belonged to nobody alive but the remover. */
  lemma OthersPhase(s: State, e: Event, i: Pid)
    requires Inv(s) && Disciplined(s, e) && i != e.i
    ensures PhaseOk(Next(s, e), i)
  {
    assert PhaseOk(s, i) && PhaseOk(s, e.i);
  }

  lemma PhasesStep(s: State, e: Event, i: Pid)
    requires Inv(s) && Disciplined(s, e)
    ensures PhaseOk(Next(s, e), i)
  {
    if i == e.i { OwnPhase(s, e); } else { OthersPhase(s, e, i); }
  }

  lemma {:induction false} RunInv(s: State, es: seq<Event>)
    requires Inv(s) && DisciplinedRun(s, es)
    ensures Inv(Run(s, es))
    decreases |es|
  {
    if es != [] {
      var t := Next(s, es[0]);
      forall i ensures PhaseOk(t, i) { PhasesStep(s, es[0], i); }
      FileStep(s, es[0]);
      TokensStep(s, es[0]);
      RemoverStep(s, es[0]);
      RunInv(t, es[1..]);
    }
  }

  const FRESH: State := State(None, map[], {}, 0)

  /** In every disciplined run of any number of processes, at most one live process owns the lock,
      from the exclusive create on, so also while the lockfile is still empty; and the lockfile is its. */
  lemma MutualExclusion(es: seq<Event>, i: Pid, j: Pid)
    requires DisciplinedRun(FRESH, es)
    ensures var s := Run(FRESH, es);
            && (Live(s, i) && Owns(P(s, i)) && Live(s, j) && Owns(P(s, j)) ==> i == j)
            && (Live(s, i) && Owns(P(s, i)) ==> s.file.Some? && s.file.value.owner == i)
  {
    RunInv(FRESH, es);
    var s := Run(FRESH, es);
    assert PhaseOk(s, i) && PhaseOk(s, j);
  }

  // ---------- every attempt ends ----------

  /** Inside AcquireLock. */
  predicate Acquiring(ph: Phase) {
    || ph.Creating? || ph.Writing? || ph.Unwinding? || ph.Reading? || ph.Judging? || ph.Comparing? || ph.Removing?
  }

  /** The step a phase is waiting for. */
  predicate Fits(ph: Phase, step: Step) {
    match ph
    case Creating(_, _) => step.Create? || step.GiveUp?
    case Writing(_) => step.Write?
    case Unwinding(_) => step.Unwind?
    case Reading(_) => step.Read?
    case Judging(_, _) => step.Judge?
    case Comparing(_, _) => step.Recheck?
    case Removing(_, _) => step.Remove?
    case _ => false
  }

  /** How many steps are left at most. */
  function StepsLeft(ph: Phase): nat {
    match ph
    case Creating(_, retried) => if retried then 3 else 8
    case Reading(_) => 7
    case Judging(_, _) => 6
    case Comparing(_, _) => 5
    case Removing(_, _) => 4
    case Writing(_) => 2
    case Unwinding(_) => 1
    case _ => 0
  }

  /** Whatever the others do, an attempt moves closer to its end with each of its own steps: it breaks a
      lock at most once, and is outside or holding after eight steps at the latest. */
  lemma AttemptsEnd(s: State, i: Pid, step: Step)
    requires Live(s, i) && Acquiring(P(s, i)) && Fits(P(s, i), step)
    ensures var ph := P(Next(s, Event(i, step)), i);
            && StepsLeft(ph) < StepsLeft(P(s, i))
            && (Acquiring(ph) || ph == Idle(None) || ph == Holding(P(s, i).tok))
  {
  }

  /** An attempt against a written lock that is not judged stale is turned away, and changes nothing. */
  lemma HeldLockTurnsAway(s: State, j: Pid)
    requires Live(s, j) && P(s, j).Idle? && s.file.Some? && s.file.value.full
    ensures Next(Run(s, Inspect(j)), Event(j, Judge(false))) == To(s, j, Idle(None)).(next := s.next + 1)
  {
    InspectRuns(s, j);
    var seen := Judging(s.next, s.file.value);
    NotStale(Run(s, Inspect(j)), j);
    ToTwice(s.phases, j, seen, Idle(None));
  }

  lemma NotStale(s: State, j: Pid)
    requires Live(s, j) && P(s, j).Judging?
    ensures Next(s, Event(j, Judge(false))) == To(s, j, Idle(None))
  {
  }

  lemma ToTwice(phases: map<Pid, Phase>, j: Pid, a: Phase, b: Phase)
    ensures phases[j := a][j := b] == phases[j := b]
  {
  }

  // ---------- each promise is needed ----------

  predicate BothHold(s: State, i: Pid, j: Pid) {
    i != j && Live(s, i) && Live(s, j) && Owns(P(s, i)) && Owns(P(s, j))
  }

  function Three(s: State, a: Event, b: Event, c: Event): State { Next(Next(Next(s, a), b), c) }

  lemma RunThree(s: State, a: Event, b: Event, c: Event)
    ensures Run(s, [a, b, c]) == Three(s, a, b, c)
  {
    assert [a, b, c][1..] == [b, c] && [b, c][1..] == [c] && [c][1..] == [];
    assert Run(Next(s, a), [b, c]) == Run(Next(Next(s, a), b), [c]);
    assert Run(Next(Next(s, a), b), [c]) == Run(Three(s, a, b, c), []);
  }

  lemma {:induction false} RunAppend(s: State, es: seq<Event>, fs: seq<Event>)
    ensures Run(s, es + fs) == Run(Run(s, es), fs)
    decreases |es|
  {
    if es == [] {
      assert es + fs == fs;
    } else {
      assert (es + fs)[1..] == es[1..] + fs;
      RunAppend(Next(s, es[0]), es[1..], fs);
    }
  }

  /** Finding a full lockfile and judging it stale. */
  function Inspect(j: Pid): seq<Event> { [Event(j, Begin), Event(j, Create), Event(j, Read)] }
  function Break(j: Pid): seq<Event> { [Event(j, Judge(true)), Event(j, Recheck), Event(j, Remove)] }
  /** Taking the free lock; the last event leaves a holder as it is. */
  function Take(j: Pid): seq<Event> { [Event(j, Create), Event(j, Write(true)), Event(j, Begin)] }

  lemma TakeRuns(s: State, j: Pid)
    requires Live(s, j) && P(s, j).Creating? && s.file.None?
    ensures Run(s, Take(j)) == To(s, j, Holding(P(s, j).tok)).(file := Some(File(j, P(s, j).tok, true)))
  {
    RunThree(s, Event(j, Create), Event(j, Write(true)), Event(j, Begin));
    var s1 := Next(s, Event(j, Create));
    assert P(s1, j) == Writing(P(s, j).tok) && s1.file == Some(File(j, P(s, j).tok, false));
    var s2 := Next(s1, Event(j, Write(true)));
    assert P(s2, j) == Holding(P(s, j).tok);
    assert s2.phases == s.phases[j := Holding(P(s, j).tok)];
  }

  lemma InspectRuns(s: State, j: Pid)
    requires Live(s, j) && P(s, j).Idle? && s.file.Some? && s.file.value.full
    ensures Run(s, Inspect(j)) == To(s, j, Judging(s.next, s.file.value)).(next := s.next + 1)
  {
    RunThree(s, Event(j, Begin), Event(j, Create), Event(j, Read));
    var s1 := Next(s, Event(j, Begin));
    var s2 := Next(s1, Event(j, Create));
    assert P(s1, j) == Creating(s.next, false) && P(s2, j) == Reading(s.next);
    assert Next(s2, Event(j, Read)).phases == s.phases[j := Judging(s.next, s.file.value)];
  }

  lemma BreakRuns(s: State, j: Pid)
    requires Live(s, j) && P(s, j).Judging? && s.file == Some(P(s, j).seen)
    ensures Run(s, Break(j)) == To(s, j, Creating(P(s, j).tok, true)).(file := None)
  {
    RunThree(s, Event(j, Judge(true)), Event(j, Recheck), Event(j, Remove));
    var ph := P(s, j);
    var s1 := Next(s, Event(j, Judge(true)));
    var s2 := Next(s1, Event(j, Recheck));
    assert P(s1, j) == Comparing(ph.tok, ph.seen) && P(s2, j) == Removing(ph.tok, ph.seen);
    assert Next(s2, Event(j, Remove)).phases == s.phases[j := Creating(ph.tok, true)];
  }

  function Takeover(j: Pid): seq<Event> { Inspect(j) + (Break(j) + Take(j)) }

  lemma TakeoverRuns(s: State, j: Pid)
    requires Live(s, j) && P(s, j).Idle? && s.file.Some? && s.file.value.full
    ensures Run(s, Takeover(j)) ==
            To(s, j, Holding(s.next)).(file := Some(File(j, s.next, true)), next := s.next + 1)
  {
    RunAppend(s, Inspect(j), Break(j) + Take(j));
    InspectRuns(s, j);
    var s1 := Run(s, Inspect(j));
    RunAppend(s1, Break(j), Take(j));
    BreakRuns(s1, j);
    var s2 := Run(s1, Break(j));
    TakeRuns(s2, j);
    assert Run(s2, Take(j)).phases == s.phases[j := Holding(s.next)];
  }

  /** A process that judges the written lock of o stale gets the lock in one attempt, and exclusion
      survives that if and only if o is dead. */
  lemma TakeoverIsSafeIff(s: State, j: Pid)
    requires Inv(s) && Live(s, j) && P(s, j).Idle? && s.file.Some? && s.file.value.full
    ensures var t, o := Run(s, Takeover(j)), s.file.value.owner;
            && Live(t, j) && P(t, j).Holding? && t.file == Some(File(j, s.next, true))
            && (!BothHold(t, o, j) <==> o in s.dead)
  {
    TakeoverRuns(s, j);
    assert PhaseOk(s, j);
  }

  /** Two processes both between the matching re-read and the remove can end up both holding. */
  lemma OverlappingBreaksBothHold(s: State, i: Pid, j: Pid)
    requires i != j && Live(s, i) && Live(s, j) && P(s, i).Removing? && P(s, j).Removing? && s.file.Some?
    ensures var es := [Event(i, Remove)] + Take(i) + ([Event(j, Remove)] + Take(j));
            BothHold(Run(s, es), i, j)
  {
    RunAppend(s, [Event(i, Remove)] + Take(i), [Event(j, Remove)] + Take(j));
    RemoveAndTake(s, i);
    var t := Run(s, [Event(i, Remove)] + Take(i));
    assert P(t, j) == P(s, j);
    RemoveAndTake(t, j);
    assert P(Run(t, [Event(j, Remove)] + Take(j)), i) == P(t, i);
  }

  lemma RemoveAndTake(s: State, i: Pid)
    requires Live(s, i) && P(s, i).Removing? && s.file.Some?
    ensures var tok := P(s, i).tok;
            Run(s, [Event(i, Remove)] + Take(i)) == To(s, i, Holding(tok)).(file := Some(File(i, tok, true)))
  {
    assert ([Event(i, Remove)] + Take(i))[1..] == Take(i);
    var s1 := Next(s, Event(i, Remove));
    assert P(s1, i) == Creating(P(s, i).tok, true);
    TakeRuns(s1, i);
    assert s1.phases[i := Holding(P(s, i).tok)] == s.phases[i := Holding(P(s, i).tok)];
  }

  function ReleaseTwice(i: Pid): seq<Event> { [Event(i, ReleaseAgain), Event(i, RelRead), Event(i, RelRemove)] }

  /** A second Release of a lock given up earlier removes the lockfile that another process has
      created and not yet written; a third process then takes the lock beside it. */
  lemma SecondReleaseLetsTwoHold(s: State, i: Pid, j: Pid, k: Pid)
    requires i != j && j != k && i != k && Live(s, i) && Live(s, j) && Live(s, k)
    requires P(s, i).Idle? && P(s, i).spent.Some? && P(s, k).Creating?
    requires P(s, j).Writing? && s.file == Some(File(j, P(s, j).tok, false))
    ensures BothHold(Run(s, ReleaseTwice(i) + Take(k)), j, k)
  {
    var tok := P(s, i).spent.value;
    RunAppend(s, ReleaseTwice(i), Take(k));
    RunThree(s, Event(i, ReleaseAgain), Event(i, RelRead), Event(i, RelRemove));
    var s1 := Next(s, Event(i, ReleaseAgain));
    var s2 := Next(s1, Event(i, RelRead));
    assert P(s1, i) == RelReading(tok, true) && P(s2, i) == RelRemoving(tok, true);
    var t := Next(s2, Event(i, RelRemove));
    assert t.file.None? && P(t, k) == P(s, k) && P(t, j) == P(s, j);
    TakeRuns(t, k);
  }

  /** A repeated Release leaves the lockfile alone if and only if it finds none that is half written. */
  lemma ReleaseAgainIsSafeIff(s: State, i: Pid)
    requires Inv(s) && Live(s, i) && P(s, i).Idle? && P(s, i).spent.Some?
    ensures Run(s, ReleaseTwice(i)).file == s.file <==> !HalfWritten(s.file)
  {
    RunThree(s, Event(i, ReleaseAgain), Event(i, RelRead), Event(i, RelRemove));
    var tok := P(s, i).spent.value;
    var s1 := Next(s, Event(i, ReleaseAgain));
    var s2 := Next(s1, Event(i, RelRead));
    assert P(s1, i) == RelReading(tok, true) && s1.file == s.file;
    if HalfWritten(s.file) {
      assert P(s2, i) == RelRemoving(tok, true);
    } else if s.file.Some? {
      assert TokenOf(P(s, s.file.value.owner)) != TokenOf(P(s, i));
      assert P(s2, i) == Idle(Some(tok));
    }
  }

  // ---------- both failures happen from the start ----------

  /** Process i takes the free lock from outside. */
  function Acquire(i: Pid): seq<Event> { [Event(i, Begin)] + Take(i) }

  lemma AcquireRuns(s: State, i: Pid)
    requires Live(s, i) && P(s, i).Idle? && s.file.None?
    ensures Run(s, Acquire(i)) ==
            To(s, i, Holding(s.next)).(file := Some(File(i, s.next, true)), next := s.next + 1)
  {
    assert Acquire(i)[1..] == Take(i);
    var s1 := Next(s, Event(i, Begin));
    assert P(s1, i) == Creating(s.next, false);
    TakeRuns(s1, i);
    assert s1.phases[i := Holding(s.next)] == s.phases[i := Holding(s.next)];
  }

  /** Up to the remove: judged stale, contents matched; the last event changes nothing there. */
  function Approach(j: Pid): seq<Event> { [Event(j, Judge(true)), Event(j, Recheck), Event(j, Begin)] }

  lemma ApproachRuns(s: State, j: Pid)
    requires Live(s, j) && P(s, j).Judging? && s.file == Some(P(s, j).seen)
    ensures Run(s, Approach(j)) == To(s, j, Removing(P(s, j).tok, P(s, j).seen))
  {
    RunThree(s, Event(j, Judge(true)), Event(j, Recheck), Event(j, Begin));
    var ph := P(s, j);
    var s1 := Next(s, Event(j, Judge(true)));
    assert P(s1, j) == Comparing(ph.tok, ph.seen);
    assert s1.phases[j := Removing(ph.tok, ph.seen)] == s.phases[j := Removing(ph.tok, ph.seen)];
  }

  /** 0 takes the lock and dies; 1 and 2 both inspect it, and both get as far as the remove. */
  function Overlap(): seq<Event> {
    Acquire(0) + ([Event(0, Die)] + (Inspect(1) + (Inspect(2) + (Approach(1) + Approach(2)))))
  }

  lemma OverlapRuns()
    ensures var s := Run(FRESH, Overlap());
            Live(s, 1) && Live(s, 2) && P(s, 1).Removing? && P(s, 2).Removing? && s.file.Some?
  {
    var f := File(0, 0, true);
    RunAppend(FRESH, Acquire(0), [Event(0, Die)] + (Inspect(1) + (Inspect(2) + (Approach(1) + Approach(2)))));
    AcquireRuns(FRESH, 0);
    var s1 := Run(FRESH, Acquire(0));
    RunAppend(s1, [Event(0, Die)], Inspect(1) + (Inspect(2) + (Approach(1) + Approach(2))));
    assert [Event(0, Die)][1..] == [];
    var s2 := Next(s1, Event(0, Die));
    assert Run(s1, [Event(0, Die)]) == Run(s2, []);
    assert s2 == State(Some(f), map[0 := Holding(0)], {0}, 1);
    RunAppend(s2, Inspect(1), Inspect(2) + (Approach(1) + Approach(2)));
    InspectRuns(s2, 1);
    var s3 := Run(s2, Inspect(1));
    RunAppend(s3, Inspect(2), Approach(1) + Approach(2));
    InspectRuns(s3, 2);
    var s4 := Run(s3, Inspect(2));
    RunAppend(s4, Approach(1), Approach(2));
    ApproachRuns(s4, 1);
    ApproachRuns(Run(s4, Approach(1)), 2);
  }

  lemma OverlapFromTheStart()
    ensures BothHold(Run(FRESH, Overlap() + ([Event(1, Remove)] + Take(1) + ([Event(2, Remove)] + Take(2)))), 1, 2)
  {
    RunAppend(FRESH, Overlap(), [Event(1, Remove)] + Take(1) + ([Event(2, Remove)] + Take(2)));
    OverlapRuns();
    OverlappingBreaksBothHold(Run(FRESH, Overlap()), 1, 2);
  }

  /** 1 takes the lock and releases it; 2 has created the next lockfile, and 3 is about to try. */
  function HandOver(): seq<Event> {
    Acquire(1) + ([Event(1, Release), Event(1, RelRead), Event(1, RelRemove)]
    + [Event(2, Begin), Event(2, Create), Event(3, Begin)])
  }

  lemma ReleaseRuns(s: State, i: Pid, tok: Token)
    requires Live(s, i) && P(s, i) == Holding(tok) && s.file == Some(File(i, tok, true))
    ensures Run(s, [Event(i, Release), Event(i, RelRead), Event(i, RelRemove)]) ==
            To(s, i, Idle(Some(tok))).(file := None)
  {
    RunThree(s, Event(i, Release), Event(i, RelRead), Event(i, RelRemove));
    var s1 := Next(s, Event(i, Release));
    var s2 := Next(s1, Event(i, RelRead));
    assert P(s1, i) == RelReading(tok, false) && P(s2, i) == RelRemoving(tok, false);
    assert s2.phases[i := Idle(Some(tok))] == s.phases[i := Idle(Some(tok))];
  }

  /** j creates the lockfile and has not written it yet; k has begun. */
  lemma CreatorRuns(s: State, j: Pid, k: Pid)
    requires j != k && Live(s, j) && Live(s, k) && P(s, j).Idle? && P(s, k).Idle? && s.file.None?
    ensures Run(s, [Event(j, Begin), Event(j, Create), Event(k, Begin)]) ==
            To(To(s, j, Writing(s.next)), k, Creating(s.next + 1, false))
              .(file := Some(File(j, s.next, false)), next := s.next + 2)
  {
    RunThree(s, Event(j, Begin), Event(j, Create), Event(k, Begin));
    var s1 := Next(s, Event(j, Begin));
    assert P(s1, j) == Creating(s.next, false) && s1.file.None?;
    var s2 := Next(s1, Event(j, Create));
    assert s2.phases == s.phases[j := Writing(s.next)];
    assert P(s2, k) == P(s, k);
  }

  lemma HandOverRuns()
    ensures var s := Run(FRESH, HandOver());
            && Live(s, 1) && Live(s, 2) && Live(s, 3)
            && P(s, 1) == Idle(Some(0)) && P(s, 3).Creating?
            && P(s, 2) == Writing(1) && s.file == Some(File(2, 1, false))
  {
    var rest := [Event(2, Begin), Event(2, Create), Event(3, Begin)];
    var release := [Event(1, Release), Event(1, RelRead), Event(1, RelRemove)];
    RunAppend(FRESH, Acquire(1), release + rest);
    AcquireRuns(FRESH, 1);
    var s1 := Run(FRESH, Acquire(1));
    RunAppend(s1, release, rest);
    ReleaseRuns(s1, 1, 0);
    var s2 := Run(s1, release);
    CreatorRuns(s2, 2, 3);
  }

  lemma SecondReleaseFromTheStart()
    ensures BothHold(Run(FRESH, HandOver() + (ReleaseTwice(1) + Take(3))), 2, 3)
  {
    RunAppend(FRESH, HandOver(), ReleaseTwice(1) + Take(3));
    HandOverRuns();
    SecondReleaseLetsTwoHold(Run(FRESH, HandOver()), 1, 2, 3);
  }

  // ---------- a lock that nobody can break ----------

  /** A process that dies between the create and the write leaves a lockfile that stays, unowned,
      in every disciplined run from there: nobody can ever take the lock again. */
  lemma {:induction false} DeadCreatorWedges(s: State, es: seq<Event>)
    requires Inv(s) && DisciplinedRun(s, es)
    requires s.file.Some? && !s.file.value.full && s.file.value.owner in s.dead
    ensures Run(s, es).file == s.file
    ensures forall i :: Live(Run(s, es), i) ==> !Owns(P(Run(s, es), i))
    decreases |es|
  {
    if es == [] {
      forall i | Live(s, i) ensures !Owns(P(s, i)) { assert PhaseOk(s, i); }
    } else {
      var t := Next(s, es[0]);
      WedgedStep(s, es[0]);
      forall i ensures PhaseOk(t, i) { PhasesStep(s, es[0], i); }
      FileStep(s, es[0]);
      TokensStep(s, es[0]);
      RemoverStep(s, es[0]);
      DeadCreatorWedges(t, es[1..]);
    }
  }

  /** And such a state is reached: create, and die before the write. */
  lemma WedgeFromTheStart(i: Pid)
    ensures var s := Run(FRESH, [Event(i, Begin), Event(i, Create), Event(i, Die)]);
            Inv(s) && s.file == Some(File(i, 0, false)) && i in s.dead
  {
    var es := [Event(i, Begin), Event(i, Create), Event(i, Die)];
    RunThree(FRESH, Event(i, Begin), Event(i, Create), Event(i, Die));
    var s1 := Next(FRESH, Event(i, Begin));
    var s2 := Next(s1, Event(i, Create));
    assert P(s1, i) == Creating(0, false) && P(s2, i) == Writing(0);
    assert es[1..] == [Event(i, Create), Event(i, Die)] && es[1..][1..] == [Event(i, Die)];
    assert DisciplinedRun(s2, es[1..][1..]) && DisciplinedRun(s1, es[1..]);
    RunInv(FRESH, es);
  }

  lemma WedgedStep(s: State, e: Event)
    requires Inv(s) && Disciplined(s, e)
    requires s.file.Some? && !s.file.value.full && s.file.value.owner in s.dead
    ensures Next(s, e).file == s.file && s.dead <= Next(s, e).dead
  {
    assert PhaseOk(s, e.i);
  }

  // ---------- the code, run without interference ----------

  /** The lockfile and the calls on it, as one process makes them. */
  class Lockfile {
    var file: Option<File>

    constructor ()
      ensures file == None
    {
      file := None;
    }

    /** tryCreateLock; `found` is the wrapped os.ErrExist. */
    method TryCreateLock(me: Pid, tok: Token, writeOk: bool) returns (ok: bool, found: bool)
      modifies this
      ensures found == old(file).Some? && (found ==> !ok && file == old(file))
      ensures !found ==> ok == writeOk && file == if ok then Some(File(me, tok, true)) else None
    {
      if file.Some? { return false, true; }
      file := Some(File(me, tok, false));
      if !writeOk {
        file := None;
        return false, false;
      }
      file := Some(File(me, tok, true));
      return true, false;
    }

    method RemoveIfUnchanged(want: File) returns (removed: bool)
      modifies this
      ensures removed == (old(file) == Some(want)) && file == if removed then None else old(file)
    {
      if file != Some(want) { return false; }
      file := None;
      return true;
    }

    /** breakIfStale: only a file whose lock info is written can be judged. */
    method BreakIfStale(aged: bool, alive: Pid -> bool) returns (broken: bool)
      modifies this
      ensures broken <==> old(file).Some? && old(file).value.full && (aged || !alive(old(file).value.owner))
      ensures file == if broken then None else old(file)
    {
      if file.None? || !file.value.full { return false; }
      if aged || !alive(file.value.owner) {
        broken := RemoveIfUnchanged(file.value);
      } else {
        broken := false;
      }
    }

    /** AcquireLock: the lock is taken exactly when the file is absent, or written and stale. */
    method AcquireLock(me: Pid, tok: Token, aged: bool, alive: Pid -> bool, writeOk: bool) returns (got: bool)
      modifies this
      ensures old(file).None? ==> got == writeOk
      ensures old(file).Some? && !old(file).value.full ==> !got
      ensures old(file).Some? && old(file).value.full ==> (got <==> writeOk && (aged || !alive(old(file).value.owner)))
      ensures got ==> file == Some(File(me, tok, true))
      ensures !got ==> file == old(file) || (!writeOk && file.None?)
    {
      var found;
      got, found := TryCreateLock(me, tok, writeOk);
      if got || !found { return; }
      var broken := BreakIfStale(aged, alive);
      if broken {
        got, found := TryCreateLock(me, tok, writeOk);
      }
    }

    /** Release: another holder's written lock is left alone; a file that is not written is not. */
    method ReleaseLock(tok: Token)
      modifies this
      ensures var other := old(file).Some? && old(file).value.full && old(file).value.token != tok;
              file == if other then old(file) else None
    {
      if file.None? { return; }
      if file.value.full && file.value.token != tok { return; }
      file := None;
    }
  }
}
