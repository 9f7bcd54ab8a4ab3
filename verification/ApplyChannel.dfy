/** internal/agent/agent.go, Run and heartbeatOnceV2: the one-slot apply channel between the
    heartbeat goroutine and the apply worker, and the order in which Run shuts them down. */
module ApplyChannel {
  import opened Text

  /** A dispatched snapshot, numbered by dispatch. */
  datatype Msg<P> = Msg(number: nat, payload: P)

  /** The heartbeat goroutine inside the coalescing select statements, or outside them. */
  datatype Producer<P> = Idle | FirstSend(m: Msg<P>) | Draining(m: Msg<P>) | SecondSend(m: Msg<P>) | Exited

  datatype Worker<P> = Waiting | Applying(m: Msg<P>) | Done

  /** Run: waiting, then cancelled (waiting for the heartbeat), closed (waiting for the worker), returned. */
  datatype Main = Running | Cancelled | Closed | Returned

  datatype State<P> = State(
    slot: Option<Msg<P>>,
    producer: Producer<P>,
    worker: Worker<P>,
    main: Main,
    dispatched: seq<P>,        // every snapshot handed to the dispatch code, in order
    received: seq<Msg<P>>,     // every snapshot the worker took, in order
    panicked: bool)            // a send met a closed channel

  datatype Event<P> =
    | Dispatch(payload: P)
    | TrySend
    | Drain
    | ReSend
    | HeartbeatExits
    | Shutdown
    | CloseChannel
    | Take
    | FinishApply
    | WorkerExits
    | ReturnFromRun

  function Init<P>(): State<P> { State(None, Idle, Waiting, Running, [], [], false) }

  predicate IsClosed<P>(s: State<P>) { s.main == Closed || s.main == Returned }

  /** A non-blocking send: delivered, skipped because the slot is full, or a panic when closed. */
  function Send<P>(s: State<P>, m: Msg<P>): State<P> {
    if IsClosed(s) then s.(panicked := true)
    else if s.slot.None? then s.(slot := Some(m))
    else s
  }

  /** One step of one goroutine; an event whose goroutine is elsewhere changes nothing. */
  function Next<P>(s: State<P>, e: Event<P>): State<P> {
    match e
    case Dispatch(p) =>
      if s.producer.Idle?
      then s.(producer := FirstSend(Msg(|s.dispatched|, p)), dispatched := s.dispatched + [p])
      else s
    case TrySend =>
      if !s.producer.FirstSend? then s
      else if s.slot.None? || IsClosed(s) then Send(s, s.producer.m).(producer := Idle)
      else s.(producer := Draining(s.producer.m))
    case Drain =>
      if s.producer.Draining? then s.(slot := None, producer := SecondSend(s.producer.m)) else s
    case ReSend =>
      if s.producer.SecondSend? then Send(s, s.producer.m).(producer := Idle) else s
    case HeartbeatExits =>
      if s.producer.Idle? then s.(producer := Exited) else s
    case Shutdown =>
      if s.main.Running? then s.(main := Cancelled) else s
    case CloseChannel =>
      if s.main.Cancelled? && s.producer.Exited? then s.(main := Closed) else s
    case Take =>
      if s.worker.Waiting? && s.slot.Some?
      then s.(slot := None, worker := Applying(s.slot.value), received := s.received + [s.slot.value])
      else s
    case FinishApply =>
      if s.worker.Applying? then s.(worker := Waiting) else s
    case WorkerExits =>
      if s.worker.Waiting? && s.slot.None? && IsClosed(s) then s.(worker := Done) else s
    case ReturnFromRun =>
      if s.main.Closed? && s.worker.Done? then s.(main := Returned) else s
  }

  function Run<P>(s: State<P>, es: seq<Event<P>>): State<P>
    decreases |es|
  {
    if es == [] then s else Run(Next(s, es[0]), es[1..])
  }

  // ---------- the invariant ----------

  predicate Known<P(==)>(s: State<P>, m: Msg<P>) {
    m.number < |s.dispatched| && s.dispatched[m.number] == m.payload
  }

  predicate InDispatch<P>(p: Producer<P>) { p.FirstSend? || p.Draining? || p.SecondSend? }

  /** The number of the newest snapshot that reached the slot or the worker. */
  function Newest<P>(s: State<P>): int {
    if s.slot.Some? then s.slot.value.number
    else if s.received != [] then s.received[|s.received| - 1].number
    else -1
  }

  ghost predicate Ordered<P>(s: State<P>) {
    && (forall i, j :: 0 <= i < j < |s.received| ==> s.received[i].number < s.received[j].number)
    && (s.slot.Some? ==> forall i :: 0 <= i < |s.received| ==> s.received[i].number < s.slot.value.number)
    && (InDispatch(s.producer) ==>
          && s.producer.m.number == |s.dispatched| - 1
          && (s.slot.Some? ==> s.slot.value.number < |s.dispatched| - 1)
          && forall i :: 0 <= i < |s.received| ==> s.received[i].number < |s.dispatched| - 1)
  }

  ghost predicate Inv<P>(s: State<P>) {
    && (s.slot.Some? ==> Known(s, s.slot.value))
    && (forall m :: m in s.received ==> Known(s, m))
    && (InDispatch(s.producer) ==> Known(s, s.producer.m))
    && (s.worker.Applying? ==> s.received != [] && s.received[|s.received| - 1] == s.worker.m)
    && Ordered(s)
    && (s.producer.SecondSend? ==> s.slot.None?)
    && (!InDispatch(s.producer) ==> Newest(s) == |s.dispatched| - 1)
    && (IsClosed(s) ==> s.producer.Exited?)
    && (s.worker.Done? ==> IsClosed(s) && s.slot.None?)
    && (s.main.Returned? ==> s.worker.Done?)
    && !s.panicked
  }

  lemma StepInv<P>(s: State<P>, e: Event<P>)
    requires Inv(s)
    ensures Inv(Next(s, e))
  {
    match e
    case Dispatch(p) => DispatchInv(s, p);
    case TrySend => SendInv(s, e);
    case ReSend => SendInv(s, e);
    case Take => TakeInv(s);
    case Shutdown => ShutdownInv(s, e);
    case CloseChannel => ShutdownInv(s, e);
    case WorkerExits => ShutdownInv(s, e);
    case ReturnFromRun => ShutdownInv(s, e);
    case _ => QuietInv(s, e);
  }

  lemma DispatchInv<P>(s: State<P>, p: P)
    requires Inv(s)
    ensures Inv(Next(s, Dispatch(p)))
  {
    forall i | 0 <= i < |s.received| ensures s.received[i].number < |s.dispatched| {
      assert s.received[i] in s.received;
    }
  }

  lemma ShutdownInv<P>(s: State<P>, e: Event<P>)
    requires Inv(s) && (e.Shutdown? || e.CloseChannel? || e.WorkerExits? || e.ReturnFromRun?)
    ensures Inv(Next(s, e))
  {
  }

  lemma QuietInv<P>(s: State<P>, e: Event<P>)
    requires Inv(s) && (e.Drain? || e.HeartbeatExits? || e.FinishApply?)
    ensures Inv(Next(s, e))
  {
  }

  lemma SendInv<P>(s: State<P>, e: Event<P>)
    requires Inv(s) && (e.TrySend? || e.ReSend?)
    ensures Inv(Next(s, e))
  {
  }

  lemma TakeInv<P>(s: State<P>)
    requires Inv(s)
    ensures Inv(Next(s, Take))
  {
  }

  lemma {:induction false} RunInv<P>(s: State<P>, es: seq<Event<P>>)
    requires Inv(s)
    ensures Inv(Run(s, es))
    decreases |es|
  {
    if es != [] {
      StepInv(s, es[0]);
      RunInv(Next(s, es[0]), es[1..]);
    }
  }

  // ---------- what every interleaving guarantees ----------

  /** `xs` can be picked out of `ys` without changing the order. */
  ghost predicate Subsequence<P(!new)>(xs: seq<P>, ys: seq<P>) {
    exists idx: seq<nat> :: PicksOut(idx, xs, ys)
  }

  ghost predicate PicksOut<P>(idx: seq<nat>, xs: seq<P>, ys: seq<P>) {
    && |idx| == |xs|
    && (forall i, j :: 0 <= i < j < |idx| ==> idx[i] < idx[j])
    && (forall i :: 0 <= i < |idx| ==> idx[i] < |ys| && xs[i] == ys[idx[i]])
  }

  function Payloads<P>(ms: seq<Msg<P>>): seq<P> { seq(|ms|, i requires 0 <= i < |ms| => ms[i].payload) }

  /** In every interleaving: the worker sees a subsequence of the dispatched snapshots, nothing is
      sent on a closed channel, and once no dispatch is in progress the last one is in the slot
      or is the last one the worker took. */
  lemma EveryRunDeliversInOrder<P(!new)>(es: seq<Event<P>>)
    ensures var s := Run(Init(), es);
            && Subsequence(Payloads(s.received), s.dispatched)
            && !s.panicked
            && (!InDispatch(s.producer) && s.dispatched != [] ==>
                  var last := s.dispatched[|s.dispatched| - 1];
                  || (s.slot.Some? && s.slot.value.payload == last)
                  || (s.slot.None? && s.received != [] && s.received[|s.received| - 1].payload == last))
  {
    RunInv(Init<P>(), es);
    var s := Run(Init(), es);
    var idx := seq(|s.received|, i requires 0 <= i < |s.received| => s.received[i].number);
    forall i | 0 <= i < |idx| ensures idx[i] < |s.dispatched| && Payloads(s.received)[i] == s.dispatched[idx[i]] {
      assert s.received[i] in s.received;
    }
    assert PicksOut(idx, Payloads(s.received), s.dispatched);
    if s.received != [] { assert s.received[|s.received| - 1] in s.received; }
  }

  /** Run returns only when both goroutines have ended and the channel is drained, and then the
      worker's last snapshot is the last one dispatched. */
  lemma ReturnMeansDrained<P>(es: seq<Event<P>>)
    requires Run(Init<P>(), es).main.Returned?
    ensures var s := Run(Init<P>(), es);
            && s.producer.Exited? && s.worker.Done? && s.slot.None?
            && (s.dispatched != [] ==>
                  s.received != [] && s.received[|s.received| - 1].payload == s.dispatched[|s.dispatched| - 1])
  {
    RunInv(Init<P>(), es);
    var s := Run(Init<P>(), es);
    if s.dispatched != [] {
      assert s.received[|s.received| - 1] in s.received;
    }
  }

  // ---------- shutting down is always possible ----------

  lemma RunFour<P>(s: State<P>, a: Event<P>, b: Event<P>, c: Event<P>, d: Event<P>)
    ensures Run(s, [a, b, c, d]) == Next(Next(Next(Next(s, a), b), c), d)
  {
    var s1 := Next(s, a);
    var s2 := Next(s1, b);
    var s3 := Next(s2, c);
    assert [a, b, c, d][1..] == [b, c, d] && [b, c, d][1..] == [c, d] && [c, d][1..] == [d] && [d][1..] == [];
    assert Run(s1, [b, c, d]) == Run(s2, [c, d]);
    assert Run(s2, [c, d]) == Run(s3, [d]);
    assert Run(s3, [d]) == Run(Next(s3, d), []);
  }

  lemma {:induction false} RunAppend<P>(s: State<P>, es: seq<Event<P>>, fs: seq<Event<P>>)
    ensures Run(s, es + fs) == Run(Run(s, es), fs)
    decreases |es|
  {
    if es == [] {
      assert es + fs == fs;
    } else {
      assert (es + fs)[1..] == es[1..] + fs;
      RunAppend(Next(s, es[0]), es[1..], fs);
    }
  }

  /** The heartbeat finishes its dispatch and ends. */
  function EndHeartbeat<P>(): seq<Event<P>> { [TrySend, Drain, ReSend, HeartbeatExits] }

  /** Run cancels and closes, and the worker finishes its apply and takes what is pending. */
  function CloseAndTake<P>(): seq<Event<P>> { [Shutdown, CloseChannel, FinishApply, Take] }

  /** The worker finishes and ends, and Run returns. */
  function EndWorker<P>(): seq<Event<P>> { [FinishApply, WorkerExits, ReturnFromRun, ReturnFromRun] }

  lemma HeartbeatEnds<P>(s: State<P>)
    requires Inv(s)
    ensures var t := Run(s, EndHeartbeat()); Inv(t) && t.producer.Exited? && t.dispatched == s.dispatched
  {
    RunFour(s, TrySend, Drain, ReSend, HeartbeatExits);
    RunInv(s, EndHeartbeat());
    var s1 := Next(s, TrySend);
    assert !s1.producer.FirstSend?;
    var s3 := Next(Next(s1, Drain), ReSend);
    assert s3.producer.Idle? || s3.producer.Exited?;
  }

  lemma ClosesAndTakes<P>(s: State<P>)
    requires Inv(s) && s.producer.Exited?
    ensures var t := Run(s, CloseAndTake());
            Inv(t) && t.producer.Exited? && IsClosed(t) && t.slot.None? && t.dispatched == s.dispatched
  {
    RunFour(s, Shutdown, CloseChannel, FinishApply, Take);
    RunInv(s, CloseAndTake());
    var s3 := Next(Next(Next(s, Shutdown), CloseChannel), FinishApply);
    assert IsClosed(s3) && (s3.worker.Waiting? || s3.worker.Done?) && s3.slot == s.slot;
  }

  lemma WorkerDone<P>(s: State<P>)
    requires IsClosed(s) && s.slot.None?
    ensures var t := Next(Next(s, FinishApply), WorkerExits);
            t.worker.Done? && t.main == s.main && t.dispatched == s.dispatched
  {
  }

  lemma Returns<P>(s: State<P>)
    requires IsClosed(s) && s.worker.Done?
    ensures Next(s, ReturnFromRun).main.Returned? && Next(s, ReturnFromRun).dispatched == s.dispatched
    ensures Next(Next(s, ReturnFromRun), ReturnFromRun) == Next(s, ReturnFromRun)
  {
  }

  lemma WorkerEnds<P>(s: State<P>)
    requires IsClosed(s) && s.slot.None?
    ensures var t := Run(s, EndWorker()); t.main.Returned? && t.dispatched == s.dispatched
  {
    RunFour(s, FinishApply, WorkerExits, ReturnFromRun, ReturnFromRun);
    WorkerDone(s);
    Returns(Next(Next(s, FinishApply), WorkerExits));
  }

  function WindDown<P>(): seq<Event<P>> { EndHeartbeat() + (CloseAndTake() + EndWorker()) }

  /** From every reachable state the shutdown order leads to the return of Run, and the worker has then
      taken the last snapshot dispatched: nobody waits for somebody who will not come. */
  lemma ShutdownAlwaysCompletes<P>(es: seq<Event<P>>)
    ensures var t := Run(Run(Init<P>(), es), WindDown());
            && t.main.Returned? && t.dispatched == Run(Init<P>(), es).dispatched
            && (t.dispatched != [] ==>
                  t.received != [] && t.received[|t.received| - 1].payload == t.dispatched[|t.dispatched| - 1])
  {
    RunInv(Init<P>(), es);
    var s := Run(Init<P>(), es);
    RunAppend(s, EndHeartbeat(), CloseAndTake() + EndWorker());
    HeartbeatEnds(s);
    var s1 := Run(s, EndHeartbeat());
    RunAppend(s1, CloseAndTake(), EndWorker());
    ClosesAndTakes(s1);
    WorkerEnds(Run(s1, CloseAndTake()));
    RunAppend(Init<P>(), es, WindDown());
    ReturnMeansDrained(es + WindDown());
  }

  /** heartbeatOnceV2's dispatch as it runs without interference: the new snapshot ends up pending. */
  class Channel<P> {
    var slot: Option<P>

    constructor ()
      ensures slot == None
    {
      slot := None;
    }

    method SendNonBlocking(p: P) returns (sent: bool)
      modifies this
      ensures sent == old(slot).None?
      ensures slot == if sent then Some(p) else old(slot)
    {
      sent := slot.None?;
      if sent { slot := Some(p); }
    }

    method Coalesce(p: P)
      modifies this
      ensures slot == Some(p)
    {
      var sent := SendNonBlocking(p);
      if !sent {
        slot := None;
        sent := SendNonBlocking(p);
      }
    }
  }
}
