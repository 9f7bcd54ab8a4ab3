/** The policy version handshake: the control plane's store and heartbeat handler
    (internal/server/handlers_agent.go), and one agent's heartbeat, apply channel, worker,
    fail-closed wipe and principals directory (internal/agent/agent.go, policy.go). */
module Handshake {
  import opened Text
  import opened PolicyHash
  import opened Policy
  import opened PolicyStore
  import opened PrincipalsDir
  import C = ApplyChannel

  datatype ApplyStatus = NoStatus | StatusOk | StatusFailed

  /** policyState: the last successful apply, and how the latest one went. */
  datatype PolicyState = PolicyState(version: nat, hash: Hash, status: ApplyStatus)

  /** The heartbeat goroutine: between beats, request sent, response in hand. */
  datatype Heartbeat = Resting | Sent(reported: Hash) | Answered(policy: Option<Payload>)

  datatype State = State(t: Tables, agent: PolicyState, files: Files, ch: C.State<Payload>, hb: Heartbeat)

  datatype Event =
    | StoreOp(op: Op)
    | HbSend
    | HbServe
    | HbFail
    | HbReceive
    | Channel(e: C.Event<Payload>)
    | WorkerApply(o: Outcome)
    | WorkerSkip                    // no principals directory is configured
    | FailClosed(o: Outcome)

  const EMPTY_PAYLOAD: Payload := Payload(0, NoHash, [])

  /** runApplyPolicy as one step: (policy state, directory) afterwards. */
  function Apply(a: PolicyState, files: Files, p: Payload, o: Outcome): (PolicyState, Files) {
    if !ValidPrincipals(p.principals) then (a.(status := StatusFailed), files)
    else match o
      case Success => (PolicyState(p.version, p.hash, StatusOk), RenderResult(files, p.principals))
      case Failure(left) => (a.(status := StatusFailed), left)
  }

  /** handleV2Heartbeat: the snapshot travels only when its hash differs from the reported one. */
  function Answer(t: Tables, me: string, reported: Hash): Option<Payload> {
    var snap := SnapshotOf(t, me);
    if snap.hash != reported then Some(snap) else None
  }

  function Next(s: State, me: string, ev: Event): State {
    match ev
    case StoreOp(op) => s.(t := PolicyStore.Step(s.t, op))
    case HbSend =>
      if s.hb.Resting? && s.ch.producer.Idle? then s.(hb := Sent(s.agent.hash)) else s
    case HbServe =>
      if s.hb.Sent? then s.(hb := Answered(Answer(s.t, me, s.hb.reported))) else s
    case HbFail => s.(hb := Resting)
    case HbReceive =>
      if !s.hb.Answered? then s
      else if s.hb.policy.None? then s.(hb := Resting)
      else s.(hb := Resting, ch := C.Next(s.ch, C.Dispatch(s.hb.policy.value)))
    case Channel(e) =>
      if e.Dispatch? || e.FinishApply? || (e.HeartbeatExits? && !s.hb.Resting?) then s
      else s.(ch := C.Next(s.ch, e))
    case WorkerApply(o) =>
      if !s.ch.worker.Applying? then s
      else
        var r := Apply(s.agent, s.files, s.ch.worker.m.payload, o);
        s.(agent := r.0, files := r.1, ch := C.Next(s.ch, C.FinishApply))
    case WorkerSkip =>
      if s.ch.worker.Applying? then s.(ch := C.Next(s.ch, C.FinishApply)) else s
    case FailClosed(o) =>
      if !s.hb.Resting? || !s.ch.producer.Idle? then s
      else
        var r := Apply(s.agent, s.files, EMPTY_PAYLOAD, o);
        s.(agent := r.0, files := r.1)
  }

  function Run(s: State, me: string, es: seq<Event>): State
    decreases |es|
  {
    if es == [] then s else Run(Next(s, me, es[0]), me, es[1..])
  }

  /** A freshly started agent process: any store, any directory left by an earlier process. */
  function Start(t: Tables, files: Files): State {
    State(t, PolicyState(0, NoHash, NoStatus), files, C.Init(), Resting)
  }

  // ---------- the invariant ----------

  /** With `clean`, the claims are about runs whose grants the canonical format can carry. */
  ghost predicate Genuine(p: Payload, clean: bool) {
    Authentic(p) && (clean ==> AllClean(Flatten(p.principals)))
  }

  ghost predicate CleanTable(acl: seq<AclRow>) {
    forall r :: r in acl ==> Clean(Grant(r.username, r.caller))
  }

  predicate CleanEvent(ev: Event) {
    ev.StoreOp? && ev.op.GrantAcl? ==> Clean(Grant(ev.op.row.username, ev.op.row.caller))
  }

  /** The directory is exactly what the policy behind the applied hash describes. */
  ghost predicate Holds(a: PolicyState, files: Files, p: Payload) {
    p.hash == a.hash && p.version == a.version && Describes(files, p.principals)
  }

  ghost predicate Synced(a: PolicyState, files: Files, clean: bool) {
    a.status == StatusOk ==> exists p :: Genuine(p, clean) && Holds(a, files, p)
  }

  ghost predicate Inv(s: State, clean: bool) {
    && PolicyStore.Inv(s.t)
    && (clean ==> CleanTable(s.t.acl))
    && C.Inv(s.ch)
    && (forall p :: p in s.ch.dispatched ==> Genuine(p, clean))
    && (s.hb.Answered? && s.hb.policy.Some? ==> Genuine(s.hb.policy.value, clean))
    && (!s.hb.Resting? ==> s.ch.producer.Idle?)
    && Synced(s.agent, s.files, clean)
  }

  lemma CleanRows(t: Tables, me: string)
    requires CleanTable(t.acl)
    ensures AllClean(GrantsOf(t.acl, me))
  {
    forall g | g in GrantsOf(t.acl, me) ensures Clean(g) {
      GrantsOfMembership(t.acl, me, g);
      var i :| 0 <= i < |t.acl| && SameTriple(t.acl[i], g.caller, me, g.username);
      assert t.acl[i] in t.acl;
    }
  }

  lemma SnapshotGenuine(t: Tables, me: string, clean: bool)
    requires PolicyStore.Inv(t) && (clean ==> CleanTable(t.acl))
    ensures Genuine(SnapshotOf(t, me), clean)
  {
    SnapshotIsAuthentic(t, me);
    if clean {
      CleanRows(t, me);
      CleanSort(GrantsOf(t.acl, me));
    }
  }

  lemma EmptyGenuine(clean: bool)
    ensures Genuine(EMPTY_PAYLOAD, clean)
  {
    HashEmptyIff([]);
  }

  lemma ApplySynced(a: PolicyState, files: Files, p: Payload, o: Outcome, clean: bool)
    requires Genuine(p, clean)
    ensures var r := Apply(a, files, p, o); Synced(r.0, r.1, clean)
  {
    var r := Apply(a, files, p, o);
    if r.0.status == StatusOk {
      RenderExactAscending(files, p.principals);
      assert Holds(r.0, r.1, p);
    }
  }

  lemma StoreStepClean(t: Tables, op: Op)
    requires CleanTable(t.acl)
    requires op.GrantAcl? ==> Clean(Grant(op.row.username, op.row.caller))
    ensures CleanTable(PolicyStore.Step(t, op).acl)
  {
  }

  /** Channel steps neither invent snapshots nor, except Dispatch, record new ones. */
  lemma ChannelStep(s: C.State<Payload>, e: C.Event<Payload>)
    requires C.Inv(s)
    ensures C.Inv(C.Next(s, e))
    ensures C.Next(s, e).dispatched ==
            if e.Dispatch? && s.producer.Idle? then s.dispatched + [e.payload] else s.dispatched
    ensures s.producer.Idle? && !e.Dispatch? && !e.HeartbeatExits? ==> C.Next(s, e).producer.Idle?
  {
    C.StepInv(s, e);
  }

  lemma AppliedWasDispatched(s: C.State<Payload>)
    requires C.Inv(s) && s.worker.Applying?
    ensures s.worker.m.payload in s.dispatched
  {
    assert s.worker.m in s.received;
  }

  lemma StoreStepInv(s: State, op: Op, clean: bool)
    requires Inv(s, clean) && (clean ==> CleanEvent(StoreOp(op)))
    ensures Inv(s.(t := PolicyStore.Step(s.t, op)), clean)
  {
    PolicyStore.StepInv(s.t, op);
    if clean { StoreStepClean(s.t, op); }
  }

  lemma BeatStepInv(s: State, me: string, ev: Event, clean: bool)
    requires Inv(s, clean) && (ev.HbSend? || ev.HbFail?)
    ensures Inv(Next(s, me, ev), clean)
  {
  }

  lemma ServeStepInv(s: State, me: string, clean: bool)
    requires Inv(s, clean)
    ensures Inv(Next(s, me, HbServe), clean)
  {
    if s.hb.Sent? { SnapshotGenuine(s.t, me, clean); }
  }

  lemma ReceiveStepInv(s: State, me: string, clean: bool)
    requires Inv(s, clean)
    ensures Inv(Next(s, me, HbReceive), clean)
  {
    if s.hb.Answered? && s.hb.policy.Some? { ChannelStep(s.ch, C.Dispatch(s.hb.policy.value)); }
  }

  lemma ChannelStepInv(s: State, me: string, e: C.Event<Payload>, clean: bool)
    requires Inv(s, clean)
    ensures Inv(Next(s, me, Channel(e)), clean)
  {
    ChannelStep(s.ch, e);
  }

  lemma WorkerStepInv(s: State, me: string, o: Outcome, clean: bool)
    requires Inv(s, clean)
    ensures Inv(Next(s, me, WorkerApply(o)), clean)
  {
    if s.ch.worker.Applying? {
      ChannelStep(s.ch, C.FinishApply);
      AppliedWasDispatched(s.ch);
      ApplySynced(s.agent, s.files, s.ch.worker.m.payload, o, clean);
    }
  }

  lemma WipeStepInv(s: State, me: string, o: Outcome, clean: bool)
    requires Inv(s, clean)
    ensures Inv(Next(s, me, FailClosed(o)), clean)
  {
    EmptyGenuine(clean);
    ApplySynced(s.agent, s.files, EMPTY_PAYLOAD, o, clean);
    var r := Apply(s.agent, s.files, EMPTY_PAYLOAD, o);
    InvWith(s, r.0, r.1, clean);
    assert Next(s, me, FailClosed(o)) == s || Next(s, me, FailClosed(o)) == s.(agent := r.0, files := r.1);
  }

  lemma InvWith(s: State, a: PolicyState, files: Files, clean: bool)
    requires Inv(s, clean) && Synced(a, files, clean)
    ensures Inv(s.(agent := a, files := files), clean)
  {
  }

  lemma StepInv(s: State, me: string, ev: Event, clean: bool)
    requires Inv(s, clean) && (clean ==> CleanEvent(ev))
    ensures Inv(Next(s, me, ev), clean)
  {
    match ev
    case StoreOp(op) => StoreStepInv(s, op, clean);
    case HbSend => BeatStepInv(s, me, ev, clean);
    case HbServe => ServeStepInv(s, me, clean);
    case HbFail => BeatStepInv(s, me, ev, clean);
    case HbReceive => ReceiveStepInv(s, me, clean);
    case Channel(e) => ChannelStepInv(s, me, e, clean);
    case WorkerApply(o) => WorkerStepInv(s, me, o, clean);
    case WorkerSkip => ChannelStep(s.ch, C.FinishApply);
    case FailClosed(o) => WipeStepInv(s, me, o, clean);
  }

  lemma {:induction false} RunInv(s: State, me: string, es: seq<Event>, clean: bool)
    requires Inv(s, clean)
    requires clean ==> forall ev :: ev in es ==> CleanEvent(ev)
    ensures Inv(Run(s, me, es), clean)
    decreases |es|
  {
    if es != [] {
      StepInv(s, me, es[0], clean);
      RunInv(Next(s, me, es[0]), me, es[1..], clean);
    }
  }

  // ---------- safety over every run ----------

  /** In every run of one agent process, whenever the latest apply succeeded, the directory is
      exactly the projection of a policy whose hash is the reported applied hash. */
  lemma AppliedHashDescribesDirectory(t: Tables, files: Files, me: string, es: seq<Event>)
    requires PolicyStore.Inv(t)
    ensures var s := Run(Start(t, files), me, es);
            s.agent.status == StatusOk ==> exists p :: Authentic(p) && Holds(s.agent, s.files, p)
  {
    RunInv(Start(t, files), me, es, false);
    var s := Run(Start(t, files), me, es);
    if s.agent.status == StatusOk {
      var p :| Genuine(p, false) && Holds(s.agent, s.files, p);
    }
  }

  /** Two authentic policies with equal hashes are the same list of principals. */
  lemma SameHashSamePrincipals(p: Payload, q: Payload)
    requires Genuine(p, true) && Genuine(q, true) && p.hash == q.hash
    ensures p.principals == q.principals
  {
    HashInjective(Flatten(p.principals), Flatten(q.principals));
    SortedUnique(Flatten(p.principals), Flatten(q.principals));
    GroupUnique(p.principals);
    GroupUnique(q.principals);
  }

  /** So when the two sides agree on the hash, the directory is the current ACL projection. */
  lemma EqualHashesMeanCurrentPolicy(t: Tables, files: Files, me: string, es: seq<Event>)
    requires PolicyStore.Inv(t) && CleanTable(t.acl)
    requires forall ev :: ev in es ==> CleanEvent(ev)
    ensures var s := Run(Start(t, files), me, es);
            s.agent.status == StatusOk && s.agent.hash == StoredHash(s.t, me)
            ==> Describes(s.files, SnapshotOf(s.t, me).principals)
  {
    RunInv(Start(t, files), me, es, true);
    var s := Run(Start(t, files), me, es);
    if s.agent.status == StatusOk && s.agent.hash == StoredHash(s.t, me) {
      var p :| Genuine(p, true) && Holds(s.agent, s.files, p);
      SnapshotGenuine(s.t, me, true);
      SameHashSamePrincipals(p, SnapshotOf(s.t, me));
    }
  }

  // ---------- convergence with a fixed ACL ----------

  /** Nothing in flight. */
  predicate Quiet(s: State) {
    s.hb.Resting? && s.ch.producer.Idle? && s.ch.slot.None? && s.ch.worker.Waiting? && s.ch.main.Running?
  }

  const BEAT: seq<Event> := [HbSend, HbServe, HbReceive]
  const DELIVERY: seq<Event> := [Channel(C.TrySend), Channel(C.Take), WorkerApply(Success)]

  lemma {:induction false} RunConcat(s: State, me: string, a: seq<Event>, b: seq<Event>)
    ensures Run(s, me, a + b) == Run(Run(s, me, a), me, b)
    decreases |a|
  {
    if a == [] {
      assert a + b == b;
    } else {
      RunConcat(Next(s, me, a[0]), me, a[1..], b);
      assert (a + b)[1..] == a[1..] + b;
    }
  }

  lemma RunThree(s: State, me: string, a: Event, b: Event, c: Event)
    ensures Run(s, me, [a, b, c]) == Next(Next(Next(s, me, a), me, b), me, c)
  {
    var s1 := Next(s, me, a);
    var s2 := Next(s1, me, b);
    assert [a, b, c][1..] == [b, c] && [b, c][1..] == [c] && [c][1..] == [];
    assert Run(s, me, [a, b, c]) == Run(s1, me, [b, c]) == Run(s2, me, [c]);
    assert Run(s2, me, [c]) == Run(Next(s2, me, c), me, []);
  }

  /** One heartbeat from a quiet state starts a dispatch exactly when the hashes differ. */
  lemma BeatEffect(s: State, me: string)
    requires Quiet(s)
    ensures Run(s, me, BEAT)
         == if StoredHash(s.t, me) == s.agent.hash then s
            else s.(ch := C.Next(s.ch, C.Dispatch(SnapshotOf(s.t, me))))
  {
    RunThree(s, me, HbSend, HbServe, HbReceive);
  }

  lemma DeliveryOfNothing(s: State, me: string)
    requires Quiet(s)
    ensures Run(s, me, DELIVERY) == s
  {
    RunThree(s, me, Channel(C.TrySend), Channel(C.Take), WorkerApply(Success));
  }

  lemma DeliveryEffect(s: State, me: string, p: Payload)
    requires Quiet(s) && ValidPrincipals(p.principals)
    ensures var s' := Run(s.(ch := C.Next(s.ch, C.Dispatch(p))), me, DELIVERY);
            && Quiet(s') && s'.t == s.t
            && s'.agent == PolicyState(p.version, p.hash, StatusOk)
            && s'.files == RenderResult(s.files, p.principals)
  {
    var s0 := s.(ch := C.Next(s.ch, C.Dispatch(p)));
    RunThree(s0, me, Channel(C.TrySend), Channel(C.Take), WorkerApply(Success));
  }

  /** One heartbeat and one successful apply reach the ACL projection from a quiet state if and
      only if the reported hash differs, or the directory is already right. */
  lemma OneRoundConverges(s: State, me: string)
    requires Quiet(s) && PolicyStore.Inv(s.t)
    requires ValidPrincipals(SnapshotOf(s.t, me).principals)
    ensures var s', snap := Run(s, me, BEAT + DELIVERY), SnapshotOf(s.t, me);
            && Quiet(s') && s'.t == s.t
            && s'.agent.hash == snap.hash
            && (Describes(s'.files, snap.principals)
                <==> snap.hash != s.agent.hash || Describes(s.files, snap.principals))
  {
    var snap := SnapshotOf(s.t, me);
    RunConcat(s, me, BEAT, DELIVERY);
    BeatEffect(s, me);
    if snap.hash == s.agent.hash {
      DeliveryOfNothing(s, me);
    } else {
      DeliveryEffect(s, me, snap);
      SnapshotIsAuthentic(s.t, me);
      RenderExactAscending(s.files, snap.principals);
    }
  }

  /** A heartbeat lost before or after the server answered leaves everything as it was. */
  lemma LostBeatChangesNothing(s: State, me: string)
    requires Quiet(s)
    ensures Next(Next(s, me, HbSend), me, HbFail) == s
    ensures Next(Next(Next(s, me, HbSend), me, HbServe), me, HbFail) == s
  {
  }

  /** An apply skipped for want of a directory only frees the worker. */
  lemma SkipFreesTheWorker(s: State, me: string)
    requires s.ch.worker.Applying?
    ensures var t := Next(s, me, WorkerSkip);
            t.ch.worker.Waiting? && t.agent == s.agent && t.files == s.files && t.ch.slot == s.ch.slot
  {
  }

  // ---------- stability and convergence in every run ----------

  /** Nothing on its way to the directory. */
  predicate Delivered(ch: C.State<Payload>) {
    ch.slot.None? && !C.InDispatch(ch.producer) && !ch.worker.Applying?
  }

  /** The hashes agree, and nothing in flight says otherwise. */
  predicate Agreed(s: State, me: string) {
    && s.agent.hash == StoredHash(s.t, me) && Delivered(s.ch)
    && match s.hb
       case Resting => true
       case Sent(reported) => reported == s.agent.hash
       case Answered(policy) => policy.None?
  }

  /** The ACL stays as it is, and nothing wipes. */
  predicate Undisturbed(e: Event) { !e.StoreOp? && !e.FailClosed? }

  lemma AgreedStep(s: State, me: string, e: Event)
    requires Agreed(s, me) && Undisturbed(e)
    ensures var t := Next(s, me, e); Agreed(t, me) && t.t == s.t && t.agent == s.agent && t.files == s.files
  {
  }

  /** Once the hashes agree, every run without an ACL change or a wipe, with heartbeats sent, served,
      lost or cut short, channel steps and shutdown in any order, changes nothing. */
  lemma {:induction false} AgreementIsStable(s: State, me: string, es: seq<Event>)
    requires Agreed(s, me) && forall e :: e in es ==> Undisturbed(e)
    ensures var t := Run(s, me, es); Agreed(t, me) && t.t == s.t && t.agent == s.agent && t.files == s.files
    decreases |es|
  {
    if es != [] {
      AgreedStep(s, me, es[0]);
      AgreementIsStable(Next(s, me, es[0]), me, es[1..]);
    }
  }

  /** Undisturbed, and no apply fails or is skipped. */
  predicate Succeeding(e: Event) {
    Undisturbed(e) && !e.WorkerSkip? && (e.WorkerApply? ==> e.o.Success?)
  }

  function AppliedState(p: Payload): PolicyState { PolicyState(p.version, p.hash, StatusOk) }

  /** The worker has finished with a snapshot dispatched at or after number d0. */
  predicate CaughtUp(ch: C.State<Payload>, d0: nat) {
    ch.received != [] && ch.received[|ch.received| - 1].number >= d0 && !ch.worker.Applying?
  }

  /** From dispatch d0 on everything dispatched is the one snapshot. */
  ghost predicate OneSnapshot(ch: C.State<Payload>, snap: Payload, d0: nat) {
    && C.Inv(ch) && d0 <= |ch.dispatched|
    && (forall i :: d0 <= i < |ch.dispatched| ==> ch.dispatched[i] == snap)
  }

  lemma OneSnapshotStep(ch: C.State<Payload>, e: C.Event<Payload>, snap: Payload, d0: nat)
    requires OneSnapshot(ch, snap, d0) && (e.Dispatch? ==> e.payload == snap)
    ensures OneSnapshot(C.Next(ch, e), snap, d0)
  {
    ChannelStep(ch, e);
  }

  /** Only the end of an apply catches up. */
  lemma CaughtUpStep(ch: C.State<Payload>, e: C.Event<Payload>, d0: nat)
    requires !e.FinishApply?
    ensures CaughtUp(C.Next(ch, e), d0) ==> CaughtUp(ch, d0)
  {
  }

  ghost predicate InForce(a: PolicyState, files: Files, snap: Payload) {
    a == AppliedState(snap) && Describes(files, snap.principals)
  }

  /** Everything sent from d0 on is the one snapshot, and once one of these is finished it is in force. */
  ghost predicate Converging(s: State, me: string, snap: Payload, d0: nat) {
    && SnapshotOf(s.t, me) == snap
    && OneSnapshot(s.ch, snap, d0)
    && (s.hb.Answered? && s.hb.policy.Some? ==> s.hb.policy.value == snap)
    && (CaughtUp(s.ch, d0) ==> InForce(s.agent, s.files, snap))
  }

  lemma ConvergingChannel(s: State, me: string, e: C.Event<Payload>, snap: Payload, d0: nat)
    requires Converging(s, me, snap, d0)
    ensures Converging(Next(s, me, Channel(e)), me, snap, d0)
  {
    var t := Next(s, me, Channel(e));
    if t != s {
      assert t == s.(agent := s.agent, files := s.files, ch := C.Next(s.ch, e));
      OneSnapshotStep(s.ch, e, snap, d0);
      CaughtUpStep(s.ch, e, d0);
      ConvergingWith(s, me, s.agent, s.files, C.Next(s.ch, e), snap, d0);
    }
  }

  lemma ConvergingReceive(s: State, me: string, snap: Payload, d0: nat)
    requires Converging(s, me, snap, d0)
    ensures Converging(Next(s, me, HbReceive), me, snap, d0)
  {
    if s.hb.Answered? && s.hb.policy.Some? {
      OneSnapshotStep(s.ch, C.Dispatch(snap), snap, d0);
      CaughtUpStep(s.ch, C.Dispatch(snap), d0);
      assert Next(s, me, HbReceive) == s.(hb := Resting, ch := C.Next(s.ch, C.Dispatch(snap)));
    }
  }

  lemma ApplyingMessage(ch: C.State<Payload>, snap: Payload, d0: nat)
    requires OneSnapshot(ch, snap, d0) && ch.worker.Applying?
    ensures CaughtUp(C.Next(ch, C.FinishApply), d0) ==> ch.worker.m.payload == snap
  {
    assert ch.received[|ch.received| - 1] == ch.worker.m && ch.worker.m in ch.received;
    assert C.Known(ch, ch.worker.m);
  }

  /** A finished snapshot of the time puts the directory right, whatever it was. */
  lemma AppliedInForce(a: PolicyState, files: Files, snap: Payload)
    requires ValidPrincipals(snap.principals) && Ascending(snap.principals)
    ensures var r := Apply(a, files, snap, Success); InForce(r.0, r.1, snap)
  {
    RenderExactAscending(files, snap.principals);
  }

  lemma ConvergingWith(s: State, me: string, a: PolicyState, files: Files, ch: C.State<Payload>, snap: Payload,
                       d0: nat)
    requires Converging(s, me, snap, d0) && OneSnapshot(ch, snap, d0)
    requires CaughtUp(ch, d0) ==> InForce(a, files, snap)
    ensures Converging(s.(agent := a, files := files, ch := ch), me, snap, d0)
  {
  }

  lemma CaughtUpInForce(ch: C.State<Payload>, a: PolicyState, files: Files, snap: Payload, d0: nat)
    requires OneSnapshot(ch, snap, d0) && ch.worker.Applying?
    requires ValidPrincipals(snap.principals) && Ascending(snap.principals)
    ensures var r := Apply(a, files, ch.worker.m.payload, Success);
            CaughtUp(C.Next(ch, C.FinishApply), d0) ==> InForce(r.0, r.1, snap)
  {
    ApplyingMessage(ch, snap, d0);
    AppliedInForce(a, files, snap);
  }

  /** Where WorkerApply(Success) leads. */
  function Applied(s: State): State
    requires s.ch.worker.Applying?
  {
    var r := Apply(s.agent, s.files, s.ch.worker.m.payload, Success);
    s.(agent := r.0, files := r.1, ch := C.Next(s.ch, C.FinishApply))
  }

  lemma AppliedConverges(s: State, me: string, snap: Payload, d0: nat)
    requires Converging(s, me, snap, d0) && s.ch.worker.Applying?
    requires ValidPrincipals(snap.principals) && Ascending(snap.principals)
    ensures Converging(Applied(s), me, snap, d0)
  {
    var ch, r := C.Next(s.ch, C.FinishApply), Apply(s.agent, s.files, s.ch.worker.m.payload, Success);
    OneSnapshotStep(s.ch, C.FinishApply, snap, d0);
    CaughtUpInForce(s.ch, s.agent, s.files, snap, d0);
    ConvergingWith(s, me, r.0, r.1, ch, snap, d0);
  }

  lemma ConvergingApply(s: State, me: string, snap: Payload, d0: nat)
    requires Converging(s, me, snap, d0) && ValidPrincipals(snap.principals) && Ascending(snap.principals)
    ensures Converging(Next(s, me, WorkerApply(Success)), me, snap, d0)
  {
    if s.ch.worker.Applying? {
      AppliedConverges(s, me, snap, d0);
      assert Next(s, me, WorkerApply(Success)) == Applied(s);
    } else {
      assert Next(s, me, WorkerApply(Success)) == s;
    }
  }

  lemma ConvergingBeat(s: State, me: string, e: Event, snap: Payload, d0: nat)
    requires Converging(s, me, snap, d0) && (e.HbSend? || e.HbServe? || e.HbFail?)
    ensures Converging(Next(s, me, e), me, snap, d0)
  {
  }

  lemma ConvergingStep(s: State, me: string, e: Event, snap: Payload, d0: nat)
    requires Converging(s, me, snap, d0) && ValidPrincipals(snap.principals) && Ascending(snap.principals)
    requires Succeeding(e)
    ensures Converging(Next(s, me, e), me, snap, d0)
  {
    if e.Channel? { ConvergingChannel(s, me, e.e, snap, d0); }
    else if e.HbReceive? { ConvergingReceive(s, me, snap, d0); }
    else if e.WorkerApply? { ConvergingApply(s, me, snap, d0); }
    else { ConvergingBeat(s, me, e, snap, d0); }
  }

  lemma {:induction false} ConvergingRun(s: State, me: string, es: seq<Event>, snap: Payload, d0: nat)
    requires Converging(s, me, snap, d0) && ValidPrincipals(snap.principals) && Ascending(snap.principals)
    requires forall e :: e in es ==> Succeeding(e)
    ensures Converging(Run(s, me, es), me, snap, d0)
    decreases |es|
  {
    if es != [] {
      ConvergingStep(s, me, es[0], snap, d0);
      ConvergingRun(Next(s, me, es[0]), me, es[1..], snap, d0);
    }
  }

  lemma NothingCaughtUpYet(ch: C.State<Payload>)
    requires C.Inv(ch)
    ensures !CaughtUp(ch, |ch.dispatched|)
  {
    if ch.received != [] { assert ch.received[|ch.received| - 1] in ch.received; }
  }

  /** In every run with a fixed valid ACL and no wipe or failed apply, from any channel state, however
      stale what it still holds: once a policy answered in that time was received, and nothing is on
      its way any more, the directory is the ACL projection and the reported hash is the server's. */
  lemma ConvergesInEveryRun(s: State, me: string, es: seq<Event>)
    requires PolicyStore.Inv(s.t) && C.Inv(s.ch) && !(s.hb.Answered? && s.hb.policy.Some?)
    requires ValidPrincipals(SnapshotOf(s.t, me).principals) && forall e :: e in es ==> Succeeding(e)
    ensures var t, snap := Run(s, me, es), SnapshotOf(s.t, me);
            |t.ch.dispatched| > |s.ch.dispatched| && Delivered(t.ch) ==>
              InForce(t.agent, t.files, snap)
  {
    var snap, d0 := SnapshotOf(s.t, me), |s.ch.dispatched|;
    SnapshotIsAuthentic(s.t, me);
    NothingCaughtUpYet(s.ch);
    ConvergingRun(s, me, es, snap, d0);
  }

  /** As long as nothing was dispatched since, nothing has changed. */
  predicate Untouched(s: State, s0: State) {
    && |s.ch.dispatched| >= |s0.ch.dispatched|
    && (|s.ch.dispatched| == |s0.ch.dispatched| ==> Delivered(s.ch) && s.agent == s0.agent && s.files == s0.files)
  }

  lemma UntouchedStep(s: State, s0: State, me: string, e: Event)
    requires Untouched(s, s0) && Succeeding(e)
    ensures Untouched(Next(s, me, e), s0)
  {
    assert |Next(s, me, e).ch.dispatched| >= |s.ch.dispatched|;
  }

  lemma {:induction false} UntouchedRun(s: State, s0: State, me: string, es: seq<Event>)
    requires Untouched(s, s0) && forall e :: e in es ==> Succeeding(e)
    ensures Untouched(Run(s, me, es), s0)
    decreases |es|
  {
    if es != [] {
      UntouchedStep(s, s0, me, es[0]);
      UntouchedRun(Next(s, me, es[0]), s0, me, es[1..]);
    }
  }

  /** So from a state with nothing in flight, every such run that ends so has reached the projection if
      and only if a policy was received on the way, or the directory was right from the start. */
  lemma ConvergesIff(s: State, me: string, es: seq<Event>)
    requires PolicyStore.Inv(s.t) && C.Inv(s.ch) && Delivered(s.ch) && !(s.hb.Answered? && s.hb.policy.Some?)
    requires ValidPrincipals(SnapshotOf(s.t, me).principals) && forall e :: e in es ==> Succeeding(e)
    requires Delivered(Run(s, me, es).ch)
    ensures var t, ps := Run(s, me, es), SnapshotOf(s.t, me).principals;
            Describes(t.files, ps) <==> |t.ch.dispatched| > |s.ch.dispatched| || Describes(s.files, ps)
  {
    ConvergesInEveryRun(s, me, es);
    UntouchedRun(s, s, me, es);
  }

  // ---------- after a fail-closed wipe ----------

  /** The heartbeat goroutine is where checkFailClosed runs. */
  predicate MayWipe(s: State) { s.hb.Resting? && s.ch.producer.Idle? }

  /** Right after a fail-closed wipe the directory is empty, and a non-empty ACL would be sent again. */
  lemma WipeIsUndoneByNextBeat(s: State, me: string)
    requires MayWipe(s) && PolicyStore.Inv(s.t) && GrantsOf(s.t.acl, me) != []
    ensures var w := Next(s, me, FailClosed(Success));
            && w.files == map[] && w.ch == s.ch
            && Answer(w.t, me, w.agent.hash) == Some(SnapshotOf(s.t, me))
  {
    var w := Next(s, me, FailClosed(Success));
    HashEmptyIff(GrantsOf(s.t.acl, me));
    assert w.files == map[];
  }

  /** Applying the snapshot to an empty directory leaves it empty. */
  predicate LeavesEmpty(p: Payload) {
    ValidPrincipals(p.principals) ==> RenderResult(map[], p.principals) == map[]
  }

  /** Of an authentic snapshot that means there is nobody in it, or it cannot be applied. */
  lemma LeavesEmptyIff(p: Payload)
    requires Ascending(p.principals) && NonEmptyCallers(p.principals)
    ensures LeavesEmpty(p) <==> p.principals == [] || !ValidPrincipals(p.principals)
  {
    RenderExactAscending(map[], p.principals);
    if p.principals != [] {
      assert p.principals[0] in p.principals;
      assert p.principals[0].username in RenderResult(map[], p.principals);
    }
  }

  /** Nothing on its way would put a file back. */
  predicate PendingLeavesEmpty(ch: C.State<Payload>) {
    && (ch.slot.Some? ==> LeavesEmpty(ch.slot.value.payload))
    && (ch.worker.Applying? ==> LeavesEmpty(ch.worker.m.payload))
  }

  /** Any step, where applies and wipes that are attempted succeed. */
  predicate Reliable(e: Event) {
    (e.WorkerApply? ==> e.o.Success?) && (e.FailClosed? ==> e.o.Success?)
  }

  ghost predicate AllReliable(es: seq<Event>) { forall e :: e in es ==> Reliable(e) }

  /** Wiped, as long as nothing is dispatched after number d0. */
  predicate Wiped(s: State, d0: nat) {
    && |s.ch.dispatched| >= d0
    && (|s.ch.dispatched| == d0 ==> s.files == map[] && PendingLeavesEmpty(s.ch) && !C.InDispatch(s.ch.producer))
  }

  lemma WipedApply(s: State, me: string, e: Event, d0: nat)
    requires Wiped(s, d0) && Reliable(e) && (e.WorkerApply? || e.FailClosed?)
    ensures Wiped(Next(s, me, e), d0)
  {
    if e.FailClosed? { assert RenderResult(s.files, []) == map[]; }
  }

  lemma WipedOther(s: State, me: string, e: Event, d0: nat)
    requires Wiped(s, d0) && !e.WorkerApply? && !e.FailClosed?
    ensures Wiped(Next(s, me, e), d0)
  {
  }

  lemma {:induction false} WipedRun(s: State, me: string, es: seq<Event>, d0: nat)
    requires Wiped(s, d0) && AllReliable(es)
    ensures Wiped(Run(s, me, es), d0)
    decreases |es|
  {
    if es != [] {
      if es[0].WorkerApply? || es[0].FailClosed? { WipedApply(s, me, es[0], d0); }
      else { WipedOther(s, me, es[0], d0); }
      WipedRun(Next(s, me, es[0]), me, es[1..], d0);
    }
  }

  /** As long as no further policy is received, the directory stays empty. */
  ghost predicate StaysEmpty(w: State, me: string, es: seq<Event>) {
    var t := Run(w, me, es);
    AllReliable(es) && |t.ch.dispatched| == |w.ch.dispatched| ==> t.files == map[]
  }

  /** The worker finishes what it is applying, over the empty directory. */
  lemma ApplyUndoes(w: State, me: string)
    requires w.files == map[] && w.ch.worker.Applying? && !LeavesEmpty(w.ch.worker.m.payload)
    ensures !StaysEmpty(w, me, [WorkerApply(Success)])
  {
    assert [WorkerApply(Success)][1..] == [];
    assert Run(w, me, [WorkerApply(Success)]) == Run(Next(w, me, WorkerApply(Success)), me, []);
    assert AllReliable([WorkerApply(Success)]);
  }

  /** The worker finishes what it has, if anything, and takes and applies the pending snapshot. */
  lemma PendingUndoes(w: State, me: string) returns (es: seq<Event>)
    requires C.Inv(w.ch) && w.files == map[] && w.ch.slot.Some? && !LeavesEmpty(w.ch.slot.value.payload)
    requires w.ch.worker.Applying? ==> LeavesEmpty(w.ch.worker.m.payload)
    ensures !StaysEmpty(w, me, es)
  {
    es := [WorkerApply(Success), Channel(C.Take), WorkerApply(Success)];
    RunThree(w, me, WorkerApply(Success), Channel(C.Take), WorkerApply(Success));
    var w1 := Next(w, me, WorkerApply(Success));
    assert w1.files == map[] && w1.ch.worker.Waiting? && w1.ch.slot == w.ch.slot && w1.ch.dispatched == w.ch.dispatched;
    var w2 := Next(w1, me, Channel(C.Take));
    assert w2.files == map[] && w2.ch.worker.Applying? && w2.ch.worker.m == w.ch.slot.value;
    assert w2.ch.dispatched == w.ch.dispatched;
  }

  /** In every run with reliable applies, the wipe stands until the next policy is received, if and only
      if nothing that was on its way already puts a file back. */
  lemma WipeStandsIff(s: State, me: string)
    requires MayWipe(s) && C.Inv(s.ch)
    ensures var w := Next(s, me, FailClosed(Success));
            (forall es :: StaysEmpty(w, me, es)) <==> PendingLeavesEmpty(s.ch)
  {
    var w := Next(s, me, FailClosed(Success));
    assert w.files == map[] && w.ch == s.ch;
    if PendingLeavesEmpty(s.ch) {
      forall es ensures StaysEmpty(w, me, es) {
        if AllReliable(es) { WipedRun(w, me, es, |w.ch.dispatched|); }
      }
    } else if s.ch.worker.Applying? && !LeavesEmpty(s.ch.worker.m.payload) {
      ApplyUndoes(w, me);
    } else {
      var es := PendingUndoes(w, me);
    }
  }

  // ---------- one bad name ----------

  /** A grant to this agent that its validators refuse. The server checks only that names are not empty. */
  predicate BadRow(row: AclRow, me: string) {
    row.agent == me && !(ValidUsername(row.username) && ValidCaller(row.caller))
  }

  lemma BadRowSpoils(t: Tables, me: string, row: AclRow)
    requires PolicyStore.Inv(t) && row in t.acl && BadRow(row, me)
    ensures !ValidPrincipals(SnapshotOf(t, me).principals)
  {
    var g, ps := Grant(row.username, row.caller), SnapshotOf(t, me).principals;
    var i :| 0 <= i < |t.acl| && t.acl[i] == row;
    assert SameTriple(t.acl[i], g.caller, me, g.username);
    GrantsOfMembership(t.acl, me, g);
    SnapshotIsAuthentic(t, me);
    assert g in multiset(Flatten(ps));
    FlattenMembership(ps, g);
    var k :| 0 <= k < |ps| && ps[k].username == g.username && g.caller in ps[k].callers;
    assert ps[k] in ps;
  }

  /** Everything on its way will be refused. */
  predicate PendingInvalid(ch: C.State<Payload>) {
    && (ch.slot.Some? ==> !ValidPrincipals(ch.slot.value.payload.principals))
    && (ch.worker.Applying? ==> !ValidPrincipals(ch.worker.m.payload.principals))
    && (C.InDispatch(ch.producer) ==> !ValidPrincipals(ch.producer.m.payload.principals))
  }

  ghost predicate Blocked(s: State, me: string, row: AclRow) {
    && PolicyStore.Inv(s.t) && row in s.t.acl && BadRow(row, me)
    && PendingInvalid(s.ch)
    && (s.hb.Answered? && s.hb.policy.Some? ==> !ValidPrincipals(s.hb.policy.value.principals))
  }

  /** No wipe, and the row itself is not revoked. */
  predicate LeavesRow(e: Event, row: AclRow) {
    !e.FailClosed? && (e.StoreOp? && e.op.RevokeAcl? ==> e.op.id != row.id)
  }

  lemma RowStays(t: Tables, op: Op, row: AclRow)
    requires row in t.acl && (op.RevokeAcl? ==> op.id != row.id)
    ensures row in PolicyStore.Step(t, op).acl
  {
    if op.RevokeAcl? && FindId(t.acl, op.id).Some? {
      var k := FindId(t.acl, op.id).value;
      var i :| 0 <= i < |t.acl| && t.acl[i] == row;
      var cut := t.acl[..k] + t.acl[k + 1..];
      assert cut[if i < k then i else i - 1] == row;
    }
  }

  lemma BlockedStore(s: State, me: string, op: Op, row: AclRow)
    requires Blocked(s, me, row) && LeavesRow(StoreOp(op), row)
    ensures Blocked(Next(s, me, StoreOp(op)), me, row)
  {
    PolicyStore.StepInv(s.t, op);
    RowStays(s.t, op, row);
  }

  lemma BlockedServe(s: State, me: string, row: AclRow)
    requires Blocked(s, me, row)
    ensures Blocked(Next(s, me, HbServe), me, row)
  {
    BadRowSpoils(s.t, me, row);
  }

  lemma BlockedOther(s: State, me: string, e: Event, row: AclRow)
    requires Blocked(s, me, row) && !e.StoreOp? && !e.HbServe? && !e.FailClosed?
    ensures Blocked(Next(s, me, e), me, row)
  {
  }

  lemma BlockedFiles(s: State, me: string, e: Event, row: AclRow)
    requires Blocked(s, me, row) && !e.FailClosed?
    ensures Next(s, me, e).files == s.files && Next(s, me, e).agent.hash == s.agent.hash
  {
  }

  /** While the ACL holds one row the agent's validators refuse, and everything on its way is refused,
      every run without a wipe, with any grants and any other revocations in it, leaves the directory
      and the reported hash as they were: no later change reaches the machine until that row goes. */
  lemma {:induction false} OneBadRowBlocksAll(s: State, me: string, es: seq<Event>, row: AclRow)
    requires Blocked(s, me, row) && forall e :: e in es ==> LeavesRow(e, row)
    ensures var t := Run(s, me, es); t.files == s.files && t.agent.hash == s.agent.hash
    decreases |es|
  {
    if es != [] {
      var e := es[0];
      assert e in es;
      BlockedFiles(s, me, e, row);
      if e.StoreOp? { BlockedStore(s, me, e.op, row); }
      else if e.HbServe? { BlockedServe(s, me, row); }
      else { BlockedOther(s, me, e, row); }
      OneBadRowBlocksAll(Next(s, me, e), me, es[1..], row);
    }
  }

  /** A restarted agent reports the empty hash; against an empty ACL the leftover files of an earlier
      process stay in every run without an ACL change or a wipe, and are never what the ACL describes. */
  lemma RestartAgainstEmptyAclKeepsFiles(t: Tables, files: Files, me: string, es: seq<Event>)
    requires PolicyStore.Inv(t) && GrantsOf(t.acl, me) == [] && files != map[]
    requires forall e :: e in es ==> Undisturbed(e)
    ensures var s := Run(Start(t, files), me, es);
            s.files == files && !Describes(s.files, SnapshotOf(s.t, me).principals)
  {
    HashEmptyIff(GrantsOf(t.acl, me));
    AgreementIsStable(Start(t, files), me, es);
    var name :| name in files;
  }

  // ---------- the agent's own code ----------

  /** The fields of Agent the apply path updates, and the methods that update them. */
  class Agent {
    var policyState: PolicyState
    const dir: Directory
    const configured: bool          // a principals directory is configured
    const applyCh: C.Channel<Payload>
    var failClosedAfter: Option<nat>
    var lastHeartbeatOK: Option<nat>

    constructor (files: Files, configured: bool)
      ensures this.configured == configured
      ensures policyState == PolicyState(0, NoHash, NoStatus) && dir.files == files
      ensures applyCh.slot.None? && failClosedAfter.None? && lastHeartbeatOK.None?
      ensures fresh(dir) && fresh(applyCh)
    {
      this.configured := configured;
      policyState := PolicyState(0, NoHash, NoStatus);
      failClosedAfter := None;
      lastHeartbeatOK := None;
      dir := new Directory(files);
      applyCh := new C.Channel();
    }

    /** runApplyPolicy: skipped without a configured directory; otherwise, whatever the renderer does,
        the outcome is one `Apply` step. */
    method RunApplyPolicy(snap: Payload, reliable: bool) returns (ghost o: Outcome)
      modifies this`policyState, dir
      ensures !configured ==> policyState == old(policyState) && dir.files == old(dir.files)
      ensures configured ==> (policyState, dir.files) == Apply(old(policyState), old(dir.files), snap, o)
      ensures configured && policyState.status != StatusOk ==>
        policyState == PolicyState(old(policyState).version, old(policyState).hash, StatusFailed)
      ensures configured && policyState.status == StatusOk ==>
        && policyState.version == snap.version && policyState.hash == snap.hash
        && ValidPrincipals(snap.principals) && dir.files == RenderResult(old(dir.files), snap.principals)
      ensures !ValidPrincipals(snap.principals) ==> policyState.status != StatusOk || !configured
      ensures !ValidPrincipals(snap.principals) ==> dir.files == old(dir.files)
      ensures configured && reliable && ValidPrincipals(snap.principals) ==> policyState.status == StatusOk
    {
      if !configured { return Success; }
      var ok := dir.RenderPrincipalsDir(snap.principals, reliable);
      if !ok {
        policyState := policyState.(status := StatusFailed);
        return Failure(dir.files);
      }
      policyState := PolicyState(snap.version, snap.hash, StatusOk);
      return Success;
    }

    /** checkFailClosed: wipe when configured, after a first success, and after the set silence. */
    method CheckFailClosed(now: nat, reliable: bool) returns (ghost o: Option<Outcome>)
      modifies this`policyState, dir
      ensures o.Some? <==>
        && failClosedAfter.Some? && failClosedAfter.value > 0
        && lastHeartbeatOK.Some? && now - lastHeartbeatOK.value >= failClosedAfter.value
      ensures o.Some? && configured ==>
        (policyState, dir.files) == Apply(old(policyState), old(dir.files), EMPTY_PAYLOAD, o.value)
      ensures o.None? || !configured ==> policyState == old(policyState) && dir.files == old(dir.files)
      ensures o.Some? && configured && reliable ==>
        dir.files == map[] && policyState == PolicyState(0, NoHash, StatusOk)
    {
      if failClosedAfter.None? || failClosedAfter.value <= 0 { return None; }
      if lastHeartbeatOK.None? { return None; }
      if now - lastHeartbeatOK.value >= failClosedAfter.value {
        ghost var r := RunApplyPolicy(EMPTY_PAYLOAD, reliable);
        return Some(r);
      }
      return None;
    }

    /** heartbeatOnceV2 after a response: note the success, then hand the policy to the worker. */
    method OnResponse(policy: Option<Payload>, fca: Option<nat>, now: nat) returns (firstHealthy: bool)
      modifies this`failClosedAfter, this`lastHeartbeatOK, applyCh
      ensures failClosedAfter == fca && lastHeartbeatOK == Some(now)
      ensures firstHealthy <==> old(lastHeartbeatOK).None?
      ensures applyCh.slot == if policy.Some? then policy else old(applyCh.slot)
    {
      firstHealthy := lastHeartbeatOK.None?;
      lastHeartbeatOK := Some(now);
      failClosedAfter := fca;
      if policy.Some? { applyCh.Coalesce(policy.value); }
    }
  }
}
