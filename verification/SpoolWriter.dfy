/** The Windows apply path: the agent submits a desired state through a spool file and polls an
    applied-status file (internal/agent/policy_apply_windows.go); the LocalSystem writer polls the
    spool, renders and reports (principalswriter_windows.go, principalswriter.go). */
module SpoolWriter {
  import opened Text
  import opened PolicyHash
  import opened Policy
  import opened PrincipalsDir

  // ---------- the two files ----------

  datatype Desired = Desired(version: nat, hash: Hash, principals: seq<Principal>, deprovision: bool)

  /** The spool file's bytes: an encoded desired state, or something that does not parse. */
  datatype Bytes = Garbage(text: string) | Encoded(d: Desired)

  datatype Status = Status(version: nat, hash: Hash, ok: bool)

  /** What the acknowledgement is keyed on. */
  datatype Pair = Pair(version: nat, hash: Hash)

  function PairOf(d: Desired): Pair { Pair(d.version, d.hash) }

  predicate MatchesDesired(st: Status, d: Desired) {
    st.version == d.version && st.hash == d.hash
  }

  predicate RequestsDeprovision(b: Bytes) { b.Encoded? && b.d.deprovision }

  predicate ShouldSelfRemove(b: Bytes, st: Status) { st.ok && RequestsDeprovision(b) }

  const DEPROVISION_STATE: Desired := Desired(0, NoHash, [], true)

  /** applyDesiredStateBytes: (directory, status) afterwards. */
  function ApplyBytes(files: Files, b: Bytes, o: Outcome): (Files, Status) {
    match b
    case Garbage(_) => (files, Status(0, NoHash, false))
    case Encoded(d) =>
      if !ValidPrincipals(d.principals) then (files, Status(d.version, d.hash, false))
      else match o
        case Success => (RenderResult(files, d.principals), Status(d.version, d.hash, true))
        case Failure(left) => (left, Status(d.version, d.hash, false))
  }

  // ---------- the wait for an acknowledgement ----------

  datatype PollResult = Resolved(st: Status) | TimedOut | Interrupted

  /** The i-th reading of the status file resolves a wait for d. */
  predicate Resolves(read: nat -> Option<Status>, i: nat, d: Desired) {
    read(i).Some? && MatchesDesired(read(i).value, d)
  }

  ghost predicate FirstToResolve(read: nat -> Option<Status>, i: nat, d: Desired) {
    Resolves(read, i, d) && forall j: nat :: j < i ==> !Resolves(read, j, d)
  }

  /** pollApplied over the successive readings of the status file: the first reading that matches
      decides, however stale the ones before it, unless the deadline or a shutdown comes first. */
  method PollApplied(d: Desired, read: nat -> Option<Status>, deadline: nat, shutdown: nat) returns (r: PollResult)
    ensures r.Resolved? <==> exists i: nat :: i <= deadline && i <= shutdown && Resolves(read, i, d)
    ensures r.Resolved? ==> exists i: nat :: read(i) == Some(r.st) && FirstToResolve(read, i, d)
    ensures r.TimedOut? ==> deadline <= shutdown
    ensures r.Interrupted? ==> shutdown < deadline
  {
    var i: nat := 0;
    while true
      invariant i <= deadline && i <= shutdown
      invariant forall j: nat :: j < i ==> !Resolves(read, j, d)
      decreases deadline - i
    {
      var st := read(i);
      if st.Some? && MatchesDesired(st.value, d) {
        assert FirstToResolve(read, i, d);
        return Resolved(st.value);
      }
      if i >= deadline { return TimedOut; }
      if i >= shutdown { return Interrupted; }
      i := i + 1;
    }
  }

  // ---------- the protocol ----------

  /** The writer service: not running, between ticks, inside one tick, or removed for good. */
  datatype Writer =
    | Down
    | Waiting
    | Read(b: Bytes)
    | Rendered(b: Bytes, st: Status)
    | Reported(b: Bytes, st: Status)
    | Gone

  /** submitDesiredState: idle, or polling for the submission recorded at `log[at]`. */
  datatype Agent = Idle | Polling(d: Desired, at: nat)

  /** What happened, in order. */
  datatype Act =
    | Submitted(d: Desired, clear: bool)             // `clear`: see Clear, at that moment
    | Started                                        // a writer process, with an empty memory
    | Wrote(b: Bytes, files: Files)                  // a successful render, and the directory right after it
    | Acknowledged(st: Status, written: bool, prior: Option<Status>)   // an attempted status write, over `prior`
    | Returned(d: Desired, at: nat, files: Files)    // nil returned, and the directory at that moment
    | Removed(b: Bytes, disk: Option<Status>)        // the writer deleted its own service; the status file then

  datatype State = State(
    spool: Option<Bytes>,
    applied: Option<Status>,      // None: missing, or does not parse
    files: Files,
    writer: Writer,
    last: Option<Bytes>,          // lastDigest, a collision-free digest of these bytes
    agent: Agent,
    log: seq<Act>)

  datatype Event =
    | Submit(d: Desired, ok: bool) | Poll | GiveUp
    | Start | Tick | Render(o: Outcome) | Report(ok: bool) | Finish(deleted: bool) | Crash(left: Files)

  predicate SamePair(b: Bytes, d: Desired) { b.Encoded? && PairOf(b.d) == PairOf(d) }

  /** The bytes ask for another state than d under the same pair, and one that can be rendered. */
  predicate Impostor(b: Bytes, d: Desired) {
    SamePair(b, d) && b != Encoded(d) && ValidPrincipals(b.d.principals)
  }

  predicate SaysOk(disk: Option<Status>, d: Desired) {
    disk.Some? && disk.value.ok && MatchesDesired(disk.value, d)
  }

  /** Nothing that could answer for d without rendering it: no ok status under its pair on disk, none
      computed and about to be written, and no other valid state under its pair about to be rendered. */
  predicate Clear(s: State, d: Desired) {
    && !SaysOk(s.applied, d)
    && !(s.writer.Rendered? && s.writer.st.ok && SamePair(s.writer.b, d))
    && !(s.writer.Read? && Impostor(s.writer.b, d))
  }

  function Next(s: State, e: Event): State {
    match e
    case Submit(d, ok) =>
      if !s.agent.Idle? || !ok then s
      else s.(spool := Some(Encoded(d)), agent := Polling(d, |s.log|), log := s.log + [Submitted(d, Clear(s, d))])
    case Poll =>
      if !s.agent.Polling? || s.applied.None? || !MatchesDesired(s.applied.value, s.agent.d) then s
      else if s.applied.value.ok then s.(agent := Idle, log := s.log + [Returned(s.agent.d, s.agent.at, s.files)])
      else s.(agent := Idle)
    case GiveUp => s.(agent := Idle)
    case Start =>
      if s.writer.Down? then s.(writer := Waiting, last := None, log := s.log + [Started]) else s
    case Tick =>
      if s.writer.Waiting? && s.spool.Some? && s.spool != s.last then s.(writer := Read(s.spool.value)) else s
    case Render(o) =>
      if !s.writer.Read? then s
      else
        var r := ApplyBytes(s.files, s.writer.b, o);
        s.(files := r.0, writer := Rendered(s.writer.b, r.1),
           log := if r.1.ok then s.log + [Wrote(s.writer.b, r.0)] else s.log)
    case Report(ok) =>
      if !s.writer.Rendered? then s
      else s.(applied := if ok then Some(s.writer.st) else s.applied,
              writer := Reported(s.writer.b, s.writer.st), log := s.log + [Acknowledged(s.writer.st, ok, s.applied)])
    case Finish(deleted) =>
      if !s.writer.Reported? then s
      else if !s.writer.st.ok then s.(writer := Waiting)
      else if !ShouldSelfRemove(s.writer.b, s.writer.st) then s.(writer := Waiting, last := Some(s.writer.b))
      else if !deleted then s.(writer := Down, last := Some(s.writer.b))
      else s.(writer := Gone, last := Some(s.writer.b), log := s.log + [Removed(s.writer.b, s.applied)])
    case Crash(left) =>
      if s.writer.Gone? then s
      else s.(writer := Down, files := if s.writer.Read? then left else s.files)
  }

  function Run(s: State, es: seq<Event>): State
    decreases |es|
  {
    if es == [] then s else Run(Next(s, es[0]), es[1..])
  }

  /** Any files an earlier boot left, no process running yet. */
  predicate Initial(s: State) {
    s.writer.Down? && s.last.None? && s.agent.Idle? && s.log == []
  }

  /** The pairs the two files hold already. */
  function Leftover(s: State): set<Pair> {
    (if s.spool.Some? && s.spool.value.Encoded? then {PairOf(s.spool.value.d)} else {})
    + (if s.applied.Some? then {Pair(s.applied.value.version, s.applied.value.hash)} else {})
  }

  // ---------- what the log must show ----------

  ghost predicate SubmittedBefore(log: seq<Act>, k: Pair) {
    exists i :: 0 <= i < |log| && log[i].Submitted? && PairOf(log[i].d) == k
  }

  /** The pair is in a leftover file, or was submitted. */
  ghost predicate Known(old0: set<Pair>, log: seq<Act>, k: Pair) {
    k in old0 || SubmittedBefore(log, k)
  }

  predicate WroteAt(log: seq<Act>, j: int, b: Bytes) {
    0 <= j < |log| && log[j].Wrote? && log[j].b == b
  }

  /** No writer process was started after log[j]. */
  predicate Quiet(log: seq<Act>, j: int) {
    forall i :: j < i < |log| && 0 <= i ==> !log[i].Started?
  }

  /** The submission at log[n] was rendered after it; and unless a writer was started after that
      render, the directory is still as that render left it. */
  ghost predicate Confirmed(log: seq<Act>, d: Desired, n: int, files: Files) {
    exists j :: n < j < |log| && WroteAt(log, j, Encoded(d)) && (Quiet(log, j) ==> log[j].files == files)
  }

  function OkStatus(d: Desired): Status { Status(d.version, d.hash, true) }

  predicate AckAt(log: seq<Act>, i: int, b: Bytes) {
    0 <= i < |log| && log[i].Acknowledged? && b.Encoded? && log[i].st == OkStatus(b.d)
  }

  /** The status file now says ok for b exactly when the write at log[i] succeeded, or it said so before. */
  predicate OnDiskIff(log: seq<Act>, i: int, b: Bytes, disk: Option<Status>)
    requires AckAt(log, i, b)
  {
    disk == Some(OkStatus(b.d)) <==> log[i].written || log[i].prior == Some(OkStatus(b.d))
  }

  /** An ok render of b by the process that is running now, and then an attempt to acknowledge it. */
  ghost predicate Acked(log: seq<Act>, b: Bytes, disk: Option<Status>) {
    exists j, i ::
      0 <= j < i < |log| && WroteAt(log, j, b) && Quiet(log, j) && AckAt(log, i, b) && OnDiskIff(log, i, b, disk)
  }

  /** A render wrote valid principals, and the directory they describe if no name clobbers another. */
  ghost predicate Exact(b: Bytes, files: Files) {
    && b.Encoded? && ValidPrincipals(b.d.principals)
    && (DistinctNames(b.d.principals) && !Clobbers(b.d.principals) ==> Describes(files, b.d.principals))
  }

  /** What must have happened before each act. */
  ghost predicate Justified(before: seq<Act>, a: Act, old0: set<Pair>) {
    match a
    case Submitted(d, clear) => !Known(old0, before, PairOf(d)) ==> clear
    case Wrote(b, files) => Exact(b, files)
    case Returned(d, n, files) =>
      && 0 <= n < |before| && before[n].Submitted? && before[n].d == d
      && (before[n].clear ==> Confirmed(before, d, n, files))
    case Removed(b, disk) => RequestsDeprovision(b) && Acked(before, b, disk)
    case _ => true
  }

  ghost predicate History(log: seq<Act>, old0: set<Pair>) {
    forall m :: 0 <= m < |log| ==> Justified(log[..m], log[m], old0)
  }

  lemma HistoryGrows(log: seq<Act>, a: Act, old0: set<Pair>)
    requires History(log, old0) && Justified(log, a, old0)
    ensures History(log + [a], old0)
  {
    var log' := log + [a];
    forall m | 0 <= m < |log'| ensures Justified(log'[..m], log'[m], old0) {
      assert log'[..m] == log[..m];
      if m == |log| { assert log[..m] == log; }
    }
  }

  // ---------- invariants ----------

  predicate Holding(w: Writer) { w.Read? || w.Rendered? || w.Reported? }

  ghost predicate KnownBytes(old0: set<Pair>, log: seq<Act>, b: Bytes) {
    b.Encoded? ==> Known(old0, log, PairOf(b.d))
  }

  /** Nothing in flight has a pair that was never submitted. */
  ghost predicate KnownInv(s: State, old0: set<Pair>) {
    && (s.spool.Some? ==> KnownBytes(old0, s.log, s.spool.value))
    && (s.last.Some? ==> KnownBytes(old0, s.log, s.last.value))
    && (Holding(s.writer) ==> KnownBytes(old0, s.log, s.writer.b))
    && (s.applied.Some? && s.applied.value.ok ==>
          Known(old0, s.log, Pair(s.applied.value.version, s.applied.value.hash)))
  }

  /** A status belongs to the bytes it was computed from, and an ok one to a render of this process. */
  ghost predicate StatusInv(s: State) {
    && ((s.writer.Rendered? || s.writer.Reported?) && s.writer.st.ok ==>
          && s.writer.b.Encoded?
          && s.writer.st == OkStatus(s.writer.b.d))
    && (s.writer.Rendered? && s.writer.st.ok ==> exists j :: WroteAt(s.log, j, s.writer.b) && Quiet(s.log, j))
    && (s.writer.Reported? && s.writer.st.ok ==> Acked(s.log, s.writer.b, s.applied))
  }

  ghost predicate WroteSince(log: seq<Act>, n: nat, b: Bytes) {
    exists j :: n < j && WroteAt(log, j, b)
  }

  /** The writer will not touch the directory again before it is restarted. */
  predicate Settled(s: State, d: Desired) {
    || s.writer.Down? || s.writer.Gone?
    || ((s.writer.Rendered? || s.writer.Reported?) && s.writer.b == Encoded(d) && s.writer.st.ok)
    || (s.writer.Waiting? && s.last == Some(Encoded(d)))
  }

  /** While a clear submission d waits, every ok that could answer for it rests on a render of d that
      came after the submission. */
  ghost predicate Supported(s: State, d: Desired, n: nat) {
    && !(s.writer.Read? && Impostor(s.writer.b, d))
    && (s.writer.Rendered? && s.writer.st.ok && SamePair(s.writer.b, d) ==> WroteSince(s.log, n, Encoded(d)))
    && (SaysOk(s.applied, d) ==> WroteSince(s.log, n, Encoded(d)))
  }

  ghost predicate Standing(s: State, d: Desired, n: nat) {
    forall j :: n < j && WroteAt(s.log, j, Encoded(d)) && Quiet(s.log, j) ==>
      s.log[j].files == s.files && Settled(s, d)
  }

  ghost predicate FlightInv(s: State) {
    s.agent.Polling? ==>
      && s.agent.at < |s.log| && s.log[s.agent.at].Submitted? && s.log[s.agent.at].d == s.agent.d
      && s.spool == Some(Encoded(s.agent.d))
      && (s.log[s.agent.at].clear ==> Supported(s, s.agent.d, s.agent.at))
      && Standing(s, s.agent.d, s.agent.at)
  }

  ghost predicate Inv(s: State, old0: set<Pair>) {
    KnownInv(s, old0) && StatusInv(s) && FlightInv(s) && History(s.log, old0)
  }

  // ---------- appending to the log ----------

  lemma KnownGrows(old0: set<Pair>, log: seq<Act>, a: Act, k: Pair)
    ensures Known(old0, log, k) ==> Known(old0, log + [a], k)
    ensures a.Submitted? && PairOf(a.d) == k ==> Known(old0, log + [a], k)
  {
    var log' := log + [a];
    if SubmittedBefore(log, k) {
      var i :| 0 <= i < |log| && log[i].Submitted? && PairOf(log[i].d) == k;
      assert log'[i] == log[i];
    }
    if a.Submitted? && PairOf(a.d) == k { assert log'[|log|] == a; }
  }

  lemma WroteAtGrows(log: seq<Act>, a: Act, j: int, b: Bytes)
    ensures WroteAt(log + [a], j, b) <==> WroteAt(log, j, b) || (j == |log| && a.Wrote? && a.b == b)
    ensures 0 <= j < |log| ==> (Quiet(log + [a], j) <==> Quiet(log, j) && !a.Started?)
  {
    var log' := log + [a];
    if 0 <= j < |log| {
      assert log'[j] == log[j];
      if Quiet(log', j) {
        assert !log'[|log|].Started?;
        forall i | j < i < |log| && 0 <= i ensures !log[i].Started? { assert log'[i] == log[i]; }
      }
    }
  }

  // ---------- every step keeps the invariants ----------

  lemma KnownStays(s: State, e: Event, old0: set<Pair>)
    ensures forall k :: Known(old0, s.log, k) ==> Known(old0, Next(s, e).log, k)
  {
    var t := Next(s, e);
    if t.log != s.log {
      var a := t.log[|s.log|];
      assert t.log == s.log + [a];
      forall k ensures Known(old0, s.log, k) ==> Known(old0, t.log, k) { KnownGrows(old0, s.log, a, k); }
    }
  }

  lemma KnownSubmit(s: State, d: Desired, ok: bool, old0: set<Pair>)
    requires KnownInv(s, old0)
    ensures KnownInv(Next(s, Submit(d, ok)), old0)
  {
    KnownStays(s, Submit(d, ok), old0);
    KnownGrows(old0, s.log, Submitted(d, Clear(s, d)), PairOf(d));
  }

  lemma KnownStep(s: State, e: Event, old0: set<Pair>)
    requires KnownInv(s, old0) && StatusInv(s)
    ensures KnownInv(Next(s, e), old0)
  {
    KnownStays(s, e, old0);
    if e.Submit? { KnownSubmit(s, e.d, e.ok, old0); }
  }

  lemma StatusRender(s: State, o: Outcome)
    requires StatusInv(s)
    ensures StatusInv(Next(s, Render(o)))
  {
    var t := Next(s, Render(o));
    if s.writer.Read? && t.writer.st.ok { assert WroteAt(t.log, |s.log|, t.writer.b) && Quiet(t.log, |s.log|); }
  }

  lemma StatusReport(s: State, ok: bool)
    requires StatusInv(s)
    ensures StatusInv(Next(s, Report(ok)))
  {
    var t := Next(s, Report(ok));
    if s.writer.Rendered? && s.writer.st.ok {
      var j :| WroteAt(s.log, j, s.writer.b) && Quiet(s.log, j);
      WroteAtGrows(s.log, Acknowledged(s.writer.st, ok, s.applied), j, s.writer.b);
      assert AckAt(t.log, |s.log|, s.writer.b) && OnDiskIff(t.log, |s.log|, s.writer.b, t.applied);
    }
  }

  lemma AckedGrows(log: seq<Act>, a: Act, b: Bytes, disk: Option<Status>)
    requires !a.Started? && Acked(log, b, disk)
    ensures Acked(log + [a], b, disk)
  {
    var j, i :|
      0 <= j < i < |log| && WroteAt(log, j, b) && Quiet(log, j) && AckAt(log, i, b) && OnDiskIff(log, i, b, disk);
    WroteAtGrows(log, a, j, b);
    assert AckAt(log + [a], i, b) && OnDiskIff(log + [a], i, b, disk);
  }

  lemma StatusAgent(s: State, e: Event)
    requires StatusInv(s) && (e.Submit? || e.Poll? || e.GiveUp?)
    ensures StatusInv(Next(s, e))
  {
    var t := Next(s, e);
    if t.log != s.log {
      var a := t.log[|s.log|];
      assert t.log == s.log + [a];
      if s.writer.Rendered? && s.writer.st.ok {
        var j :| WroteAt(s.log, j, s.writer.b) && Quiet(s.log, j);
        WroteAtGrows(s.log, a, j, s.writer.b);
      }
      if s.writer.Reported? && s.writer.st.ok { AckedGrows(s.log, a, s.writer.b, s.applied); }
    }
  }

  lemma StatusStep(s: State, e: Event)
    requires StatusInv(s)
    ensures StatusInv(Next(s, e))
  {
    if e.Render? { StatusRender(s, e.o); }
    else if e.Report? { StatusReport(s, e.ok); }
    else if e.Submit? || e.Poll? || e.GiveUp? { StatusAgent(s, e); }
  }

  lemma RenderIsExact(s: State, o: Outcome)
    requires s.writer.Read? && ApplyBytes(s.files, s.writer.b, o).1.ok
    ensures Exact(s.writer.b, ApplyBytes(s.files, s.writer.b, o).0)
  {
    var ps := s.writer.b.d.principals;
    if DistinctNames(ps) { RenderExact(s.files, ps); }
  }

  /** A clear submission that finds an ok status under its pair was rendered since. */
  lemma OkIsConfirmed(s: State, d: Desired, n: nat)
    requires Supported(s, d, n) && Standing(s, d, n)
    requires SaysOk(s.applied, d)
    ensures Confirmed(s.log, d, n, s.files)
  {
    var j :| n < j && WroteAt(s.log, j, Encoded(d));
  }

  /** A pair never seen before is clear. */
  lemma FreshIsClear(s: State, d: Desired, old0: set<Pair>)
    requires KnownInv(s, old0)
    ensures !Known(old0, s.log, PairOf(d)) ==> Clear(s, d)
  {
  }

  lemma HistoryStep(s: State, e: Event, old0: set<Pair>)
    requires Inv(s, old0)
    ensures History(Next(s, e).log, old0)
  {
    var t := Next(s, e);
    if t.log != s.log {
      var a := t.log[|s.log|];
      assert t.log == s.log + [a];
      if e.Render? { RenderIsExact(s, e.o); }
      if e.Poll? && s.log[s.agent.at].clear { OkIsConfirmed(s, s.agent.d, s.agent.at); }
      if e.Submit? { FreshIsClear(s, e.d, old0); }
      HistoryGrows(s.log, a, old0);
    }
  }

  lemma WroteSinceGrows(log: seq<Act>, a: Act, n: nat, b: Bytes)
    ensures WroteSince(log, n, b) ==> WroteSince(log + [a], n, b)
  {
    if WroteSince(log, n, b) {
      var j :| n < j && WroteAt(log, j, b);
      WroteAtGrows(log, a, j, b);
    }
  }

  lemma FlightSubmit(s: State, d: Desired)
    requires s.agent.Idle?
    ensures FlightInv(Next(s, Submit(d, true)))
  {
  }

  lemma SupportedStep(s: State, e: Event, d: Desired, n: nat)
    requires Supported(s, d, n) && StatusInv(s) && n < |s.log|
    requires s.agent == Polling(d, n) && s.spool == Some(Encoded(d))
    ensures Supported(Next(s, e), d, n)
  {
    var t := Next(s, e);
    if t.log != s.log {
      var a := t.log[|s.log|];
      assert t.log == s.log + [a];
      WroteSinceGrows(s.log, a, n, Encoded(d));
      if a.Wrote? && a.b == Encoded(d) { assert WroteAt(t.log, |s.log|, Encoded(d)); }
    }
  }

  lemma StandingRender(s: State, o: Outcome, d: Desired, n: nat)
    requires Standing(s, d, n) && n < |s.log| && s.writer.Read?
    ensures Standing(Next(s, Render(o)), d, n)
  {
    var t := Next(s, Render(o));
    forall j | n < j && WroteAt(t.log, j, Encoded(d)) && Quiet(t.log, j)
      ensures t.log[j].files == t.files && Settled(t, d)
    {
      if t.log != s.log {
        WroteAtGrows(s.log, t.log[|s.log|], j, Encoded(d));
      }
    }
  }

  lemma StandingStep(s: State, e: Event, d: Desired, n: nat)
    requires Standing(s, d, n) && n < |s.log|
    requires s.agent == Polling(d, n) && s.spool == Some(Encoded(d))
    ensures Standing(Next(s, e), d, n)
  {
    var t := Next(s, e);
    if e.Render? && s.writer.Read? {
      StandingRender(s, e.o, d, n);
    } else {
      forall j | n < j && WroteAt(t.log, j, Encoded(d)) && Quiet(t.log, j)
        ensures t.log[j].files == t.files && Settled(t, d)
      {
        if t.log != s.log { WroteAtGrows(s.log, t.log[|s.log|], j, Encoded(d)); }
      }
    }
  }

  lemma FlightStep(s: State, e: Event)
    requires StatusInv(s) && FlightInv(s)
    ensures FlightInv(Next(s, e))
  {
    var t := Next(s, e);
    if s.agent.Polling? && t.agent.Polling? {
      var d, n := s.agent.d, s.agent.at;
      assert t.agent == s.agent && t.log[n] == s.log[n];
      if s.log[n].clear { SupportedStep(s, e, d, n); }
      StandingStep(s, e, d, n);
    } else if t.agent.Polling? {
      FlightSubmit(s, e.d);
    }
  }

  lemma {:induction false} RunInv(s: State, es: seq<Event>, old0: set<Pair>)
    requires Inv(s, old0)
    ensures Inv(Run(s, es), old0)
    decreases |es|
  {
    if es != [] {
      KnownStep(s, es[0], old0);
      StatusStep(s, es[0]);
      FlightStep(s, es[0]);
      HistoryStep(s, es[0], old0);
      RunInv(Next(s, es[0]), es[1..], old0);
    }
  }

  // ---------- the guarantees ----------

  /** Rendered exactly and after the submission at log[n]; and still on disk at log[m], unless a writer
      was started in between. */
  ghost predicate RenderedFor(log: seq<Act>, d: Desired, n: nat, m: nat)
    requires m < |log| && log[m].Returned?
  {
    exists j :: n < j < m && WroteAt(log, j, Encoded(d)) && Exact(Encoded(d), log[j].files)
      && (Quiet(log[..m], j) ==> log[m].files == log[j].files)
  }

  /** In every run, with any failures and writer restarts: when submitDesiredState returns nil for a
      clear submission, the writer rendered exactly that state after the submission, the directory was
      then what the state describes, and it still is unless a writer was started since. A (version,
      hash) pair that was in neither file at the start and never submitted before is always clear. */
  lemma NilMeansRendered(s: State, es: seq<Event>, m: nat)
    requires Initial(s) && m < |Run(s, es).log| && Run(s, es).log[m].Returned?
    ensures var log := Run(s, es).log;
            var d, n := log[m].d, log[m].at;
            && n < m && log[n].Submitted? && log[n].d == d
            && (!Known(Leftover(s), log[..n], PairOf(d)) ==> log[n].clear)
            && (log[n].clear ==> RenderedFor(log, d, n, m))
  {
    RunInv(s, es, Leftover(s));
    var log := Run(s, es).log;
    var d, n := log[m].d, log[m].at;
    assert Justified(log[..m], log[m], Leftover(s));
    assert Justified(log[..n], log[n], Leftover(s));
    if log[n].clear {
      var j :| n < j < m && WroteAt(log[..m], j, Encoded(d))
        && (Quiet(log[..m], j) ==> log[..m][j].files == log[m].files);
      assert Justified(log[..j], log[j], Leftover(s));
      assert WroteAt(log, j, Encoded(d));
    }
  }

  /** Every nil for the submission at log[n] comes after a render of d that followed it. */
  ghost predicate NilIsRendered(log: seq<Act>, n: nat, d: Desired) {
    forall m :: n < m < |log| && log[m].Returned? && log[m].at == n ==> WroteSince(log[..m], n, Encoded(d))
  }

  lemma {:induction false} LogGrows(s: State, es: seq<Event>)
    ensures |s.log| <= |Run(s, es).log| && Run(s, es).log[..|s.log|] == s.log
    decreases |es|
  {
    if es == [] {
      assert s.log[..|s.log|] == s.log;
    } else {
      var t := Next(s, es[0]);
      LogGrows(t, es[1..]);
      assert t.log[..|s.log|] == s.log;
      assert Run(s, es).log[..|t.log|][..|s.log|] == Run(s, es).log[..|s.log|];
    }
  }

  lemma ClearIsEnough(s: State, es0: seq<Event>, d: Desired, es: seq<Event>)
    requires Initial(s) && Run(s, es0).agent.Idle? && Clear(Run(s, es0), d)
    ensures var at := Run(s, es0); NilIsRendered(Run(Next(at, Submit(d, true)), es).log, |at.log|, d)
  {
    var at := Run(s, es0);
    var sent := Next(at, Submit(d, true));
    RunInv(s, es0, Leftover(s));
    KnownStep(at, Submit(d, true), Leftover(s));
    StatusStep(at, Submit(d, true));
    FlightStep(at, Submit(d, true));
    HistoryStep(at, Submit(d, true), Leftover(s));
    RunInv(sent, es, Leftover(s));
    LogGrows(sent, es);
    var log, n := Run(sent, es).log, |at.log|;
    assert log[n] == log[..|sent.log|][n] == Submitted(d, true);
    forall m | n < m < |log| && log[m].Returned? && log[m].at == n ensures WroteSince(log[..m], n, Encoded(d)) {
      assert Justified(log[..m], log[m], Leftover(s));
    }
  }

  lemma RunCons(s: State, e: Event, es: seq<Event>)
    ensures Run(s, [e] + es) == Run(Next(s, e), es)
  {
    assert ([e] + es)[1..] == es;
  }

  lemma NotRendered(log: seq<Act>, n: nat, m: nat, d: Desired)
    requires n < m < |log| && log[m].Returned? && log[m].at == n
    requires forall j :: n < j < m ==> !(log[j].Wrote? && log[j].b == Encoded(d))
    ensures !NilIsRendered(log, n, d)
  {
    forall j | n < j ensures !WroteAt(log[..m], j, Encoded(d)) { }
  }

  /** An ok status under the pair on disk answers at once. */
  lemma StaleStatusAnswers(s: State, d: Desired) returns (es: seq<Event>)
    requires s.agent.Idle?
    requires SaysOk(s.applied, d)
    ensures !NilIsRendered(Run(Next(s, Submit(d, true)), es).log, |s.log|, d)
  {
    var sent := Next(s, Submit(d, true));
    es := [Poll] + [];
    RunCons(sent, Poll, []);
    NotRendered(Run(sent, es).log, |s.log|, |s.log| + 1, d);
  }

  /** So does one that was computed before the submission and is written after it. */
  lemma LateStatusAnswers(s: State, d: Desired) returns (es: seq<Event>)
    requires s.agent.Idle? && StatusInv(s)
    requires s.writer.Rendered? && s.writer.st.ok && SamePair(s.writer.b, d)
    ensures !NilIsRendered(Run(Next(s, Submit(d, true)), es).log, |s.log|, d)
  {
    var sent := Next(s, Submit(d, true));
    es := [Report(true)] + ([Poll] + []);
    RunCons(sent, Report(true), [Poll] + []);
    RunCons(Next(sent, Report(true)), Poll, []);
    NotRendered(Run(sent, es).log, |s.log|, |s.log| + 2, d);
  }

  /** And so does the render of another state under the same pair, read before the submission. */
  lemma OtherRenderAnswers(s: State, d: Desired) returns (es: seq<Event>)
    requires s.agent.Idle? && s.writer.Read? && Impostor(s.writer.b, d)
    ensures !NilIsRendered(Run(Next(s, Submit(d, true)), es).log, |s.log|, d)
  {
    var sent := Next(s, Submit(d, true));
    var rendered := Next(sent, Render(Success));
    es := [Render(Success)] + ([Report(true)] + ([Poll] + []));
    RunCons(sent, Render(Success), [Report(true)] + ([Poll] + []));
    RunCons(rendered, Report(true), [Poll] + []);
    RunCons(Next(rendered, Report(true)), Poll, []);
    NotRendered(Run(sent, es).log, |s.log|, |s.log| + 3, d);
  }

  /** In every reachable state, the condition is exact: in all continuations nil for d means that d was
      rendered after its submission, if and only if the submission is clear. */
  lemma NilIsRenderedIff(s: State, es0: seq<Event>, d: Desired)
    requires Initial(s) && Run(s, es0).agent.Idle?
    ensures var at := Run(s, es0);
            (forall es :: NilIsRendered(Run(Next(at, Submit(d, true)), es).log, |at.log|, d)) <==> Clear(at, d)
  {
    var at := Run(s, es0);
    RunInv(s, es0, Leftover(s));
    if Clear(at, d) {
      forall es ensures NilIsRendered(Run(Next(at, Submit(d, true)), es).log, |at.log|, d) {
        ClearIsEnough(s, es0, d, es);
      }
    } else if SaysOk(at.applied, d) {
      var es := StaleStatusAnswers(at, d);
    } else if at.writer.Rendered? {
      var es := LateStatusAnswers(at, d);
    } else {
      var es := OtherRenderAnswers(at, d);
    }
  }

  /** In every run, the writer removes itself only after it rendered, in the same process, a
      deprovision state successfully and then tried to write the ok status; and that status is on disk
      at the removal if and only if this write succeeded or the file already said the same. */
  lemma RemovalFollowsWipe(s: State, es: seq<Event>, m: nat)
    requires Initial(s) && m < |Run(s, es).log| && Run(s, es).log[m].Removed?
    ensures var log := Run(s, es).log;
            var b := log[m].b;
            && RequestsDeprovision(b)
            && exists j, i :: 0 <= j < i < m && WroteAt(log, j, b) && Exact(b, log[j].files)
                 && Quiet(log[..m], j) && AckAt(log, i, b) && OnDiskIff(log, i, b, log[m].disk)
  {
    RunInv(s, es, Leftover(s));
    var log := Run(s, es).log;
    var b := log[m].b;
    assert Justified(log[..m], log[m], Leftover(s));
    var j, i :| 0 <= j < i < m && WroteAt(log[..m], j, b) && Quiet(log[..m], j) && AckAt(log[..m], i, b)
      && OnDiskIff(log[..m], i, b, log[m].disk);
    assert Justified(log[..j], log[j], Leftover(s));
    assert WroteAt(log, j, b) && AckAt(log, i, b) && OnDiskIff(log, i, b, log[m].disk);
  }

  /** The bytes the running process will not render again are ones it has rendered. */
  ghost predicate LastInv(s: State) {
    s.last.Some? ==> RenderedHere(s.log, s.last.value)
  }

  /** A successful render of b by the process that is running now, or ran last. */
  ghost predicate RenderedHere(log: seq<Act>, b: Bytes) { exists j :: WroteAt(log, j, b) && Quiet(log, j) }

  lemma RenderedHereGrows(log: seq<Act>, a: Act, b: Bytes)
    requires RenderedHere(log, b) && !a.Started?
    ensures RenderedHere(log + [a], b)
  {
    var j :| WroteAt(log, j, b) && Quiet(log, j);
    WroteAtGrows(log, a, j, b);
  }

  lemma LastStep(s: State, e: Event)
    requires LastInv(s) && StatusInv(s)
    ensures LastInv(Next(s, e))
  {
    var t := Next(s, e);
    if t.last == s.last && s.last.Some? && t.log != s.log {
      RenderedHereGrows(s.log, t.log[|s.log|], s.last.value);
      assert t.log == s.log + [t.log[|s.log|]];
    } else if e.Finish? && s.writer.Reported? && s.writer.st.ok {
      FinishRemembers(s, e.deleted);
    }
  }

  lemma FinishRemembers(s: State, deleted: bool)
    requires StatusInv(s) && s.writer.Reported? && s.writer.st.ok
    ensures LastInv(Next(s, Finish(deleted)))
  {
    var j, i :| 0 <= j < i < |s.log| && WroteAt(s.log, j, s.writer.b) && Quiet(s.log, j)
      && AckAt(s.log, i, s.writer.b) && OnDiskIff(s.log, i, s.writer.b, s.applied);
    assert RenderedHere(s.log, s.writer.b);
    RenderedHereGrows(s.log, Removed(s.writer.b, s.applied), s.writer.b);
  }

  lemma {:induction false} LastRun(s: State, es: seq<Event>)
    requires LastInv(s) && StatusInv(s)
    ensures LastInv(Run(s, es))
    decreases |es|
  {
    if es != [] {
      LastStep(s, es[0]);
      StatusStep(s, es[0]);
      LastRun(Next(s, es[0]), es[1..]);
    }
  }

  /** In every run: what the running writer has not rendered successfully, a failed attempt included, is
      read again by its next tick. */
  lemma UnrenderedIsRetried(s: State, es: seq<Event>)
    requires Initial(s)
    ensures var t := Run(s, es);
            t.writer.Waiting? && t.spool.Some? && !RenderedHere(t.log, t.spool.value) ==>
              Next(t, Tick).writer == Read(t.spool.value)
  {
    LastRun(s, es);
  }

  /** A submission whose spool file cannot be written is over at once, and nothing has changed. */
  lemma FailedSubmitLeavesAll(s: State, d: Desired)
    ensures Next(s, Submit(d, false)) == s
  {
  }

  /** A poll ends the wait exactly when the status on disk is for the submitted pair, and it counts as
      success exactly when that status is ok. */
  lemma PollResolvesIff(s: State)
    requires s.agent.Polling?
    ensures var t := Next(s, Poll);
            && (t.agent.Idle? <==> s.applied.Some? && s.applied.value.version == s.agent.d.version
                                   && s.applied.value.hash == s.agent.d.hash)
            && (t.log == s.log + [Returned(s.agent.d, s.agent.at, s.files)] <==> t.agent.Idle? && s.applied.value.ok)
  {
  }

  /** The agent's own deprovision state describes only the empty directory. */
  lemma DeprovisionWipes(files: Files)
    requires Exact(Encoded(DEPROVISION_STATE), files)
    ensures files == map[]
  {
    assert !Clobbers(DEPROVISION_STATE.principals);
    DescribesUnique(files, map[], DEPROVISION_STATE.principals);
  }

  // ---------- the writer's code ----------

  /** The steps of one uninterrupted tick. */
  function WholeTick(s: State, o: Outcome, written: bool, deleted: bool): State {
    Next(Next(Next(Next(s, Tick), Render(o)), Report(written)), Finish(deleted))
  }

  lemma IdleTick(s: State, o: Outcome, written: bool, deleted: bool)
    requires s.writer.Waiting? && (s.spool.None? || s.spool == s.last)
    ensures WholeTick(s, o, written, deleted) == s
  {
  }

  lemma BusyTick(s: State, o: Outcome, written: bool, deleted: bool)
    requires s.writer.Waiting? && s.spool.Some? && s.spool != s.last
    ensures var t, r := WholeTick(s, o, written, deleted), ApplyBytes(s.files, s.spool.value, o);
            var stop := ShouldSelfRemove(s.spool.value, r.1);
            t == State(s.spool, if written then Some(r.1) else s.applied, r.0,
                       if !stop then Waiting else if deleted then Gone else Down,
                       if r.1.ok then s.spool else s.last, s.agent, t.log)
  {
  }

  /** PrincipalsWriter, with the spool and status files it works on. */
  class PrincipalsWriter {
    const dir: Directory
    var spool: Option<Bytes>
    var applied: Option<Status>
    var lastDigest: Option<Bytes>

    constructor (dir: Directory, spool: Option<Bytes>, applied: Option<Status>)
      ensures this.dir == dir && this.spool == spool && this.applied == applied && lastDigest.None?
    {
      this.dir := dir;
      this.spool := spool;
      this.applied := applied;
      lastDigest := None;
    }

    /** The protocol state while the writer is between ticks. */
    ghost function View(agent: Agent, log: seq<Act>): State
      reads this, dir
    {
      State(spool, applied, dir.files, Waiting, lastDigest, agent, log)
    }

    method ApplyDesiredStateBytes(b: Bytes, reliable: bool) returns (st: Status, ghost o: Outcome)
      modifies dir
      ensures (dir.files, st) == ApplyBytes(old(dir.files), b, o)
      ensures reliable ==> o == Success
      ensures b.Encoded? ==> st.version == b.d.version && st.hash == b.d.hash
      ensures st.ok ==> b.Encoded? && ValidPrincipals(b.d.principals)
      ensures st.ok ==> dir.files == RenderResult(old(dir.files), b.d.principals)
      ensures b.Garbage? || !ValidPrincipals(b.d.principals) ==> !st.ok && dir.files == old(dir.files)
      ensures b.Garbage? ==> st == Status(0, NoHash, false)
      ensures reliable && b.Encoded? && ValidPrincipals(b.d.principals) ==> st.ok
    {
      o := if reliable then Success else Failure(dir.files);
      if b.Garbage? { return Status(0, NoHash, false), o; }
      var d := b.d;
      if !ValidPrincipals(d.principals) { return Status(d.version, d.hash, false), o; }
      var ok := dir.RenderPrincipalsDir(d.principals, reliable);
      o := if ok then Success else Failure(dir.files);
      st := Status(d.version, d.hash, ok);
    }

    /** tick: exactly the protocol's read, render, report and finish steps, in that order. */
    method TickOnce(reliable: bool, ghost agent: Agent, ghost log: seq<Act>)
      returns (stop: bool, ghost o: Outcome, ghost written: bool, ghost deleted: bool)
      modifies this, dir
      ensures var t := WholeTick(old(View(agent, log)), o, written, deleted);
              t == View(agent, t.log).(writer := if !stop then Waiting else if deleted then Gone else Down)
      ensures reliable ==> o == Success && written && deleted
      ensures spool == old(spool)
      ensures spool.None? || spool == old(lastDigest) ==>
        !stop && lastDigest == old(lastDigest) && applied == old(applied) && dir.files == old(dir.files)
      ensures spool.Some? && spool != old(lastDigest) ==>
        var st := ApplyBytes(old(dir.files), spool.value, o).1;
        && lastDigest == (if st.ok then spool else old(lastDigest))
        && stop == (st.ok && spool.value.d.deprovision)
        && applied == (if written then Some(st) else old(applied))
    {
      ghost var before := View(agent, log);
      stop, o, written, deleted := false, if reliable then Success else Failure(map[]), reliable, reliable;
      if spool.None? || spool == lastDigest {
        IdleTick(before, o, written, deleted);
        return;
      }
      var b := spool.value;
      var st;
      st, o := ApplyDesiredStateBytes(b, reliable);
      var ok := IoStep(reliable);
      written := ok;
      if ok { applied := Some(st); }
      if st.ok {
        lastDigest := Some(b);
        stop := ShouldSelfRemove(b, st);
        if stop {
          // selfRemove: a failure is only logged, and the writer stops all the same
          var gone := IoStep(reliable);
          deleted := gone;
        }
      }
      BusyTick(before, o, written, deleted);
    }
  }
}
