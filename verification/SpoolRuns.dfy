/** Runs of the spool protocol that fall short of what one might expect of it. */
module SpoolRuns {
  import opened Text
  import opened PolicyHash
  import opened Policy
  import opened PrincipalsDir
  import opened SpoolWriter

  lemma {:induction false} RunAppend(s: State, es: seq<Event>, fs: seq<Event>)
    ensures Run(s, es + fs) == Run(Run(s, es), fs)
    decreases |es|
  {
    if es == [] {
      assert es + fs == fs;
    } else {
      assert (es + fs)[1..] == es[1..] + fs;
      RunAppend(Next(s, es[0]), es[1..], fs);
    }
  }

  /** One submission taken up by the writer at once, its status written or not. */
  function Round(d: Desired, written: bool): seq<Event> {
    [Submit(d, true)] + ([Tick] + ([Render(Success)] + ([Report(written)] + ([Finish(true)] + []))))
  }

  lemma RoundRuns(s: State, d: Desired, written: bool)
    requires s.agent.Idle? && s.writer.Waiting? && s.last != Some(Encoded(d))
    requires ValidPrincipals(d.principals)
    ensures var b, st, files := Encoded(d), OkStatus(d), RenderResult(s.files, d.principals);
            var disk := if written then Some(st) else s.applied;
            var log := s.log + [Submitted(d, Clear(s, d))] + [Wrote(b, files)] + [Acknowledged(st, written, s.applied)];
            Run(s, Round(d, written)) ==
              State(Some(b), disk, files, if d.deprovision then Gone else Waiting, Some(b), Polling(d, |s.log|),
                    if d.deprovision then log + [Removed(b, disk)] else log)
  {
    var s1 := Next(s, Submit(d, true));
    var s2 := Next(s1, Tick);
    var s3 := Next(s2, Render(Success));
    var s4 := Next(s3, Report(written));
    RunCons(s, Submit(d, true), [Tick] + ([Render(Success)] + ([Report(written)] + ([Finish(true)] + []))));
    RunCons(s1, Tick, [Render(Success)] + ([Report(written)] + ([Finish(true)] + [])));
    RunCons(s2, Render(Success), [Report(written)] + ([Finish(true)] + []));
    RunCons(s3, Report(written), [Finish(true)] + []);
    RunCons(s4, Finish(true), []);
  }

  /** A deprovisioning whose status write fails: the writer is gone, and nothing on disk says so. */
  lemma RemovalWithoutStatus(s: State)
    requires Initial(s) && s.applied.None?
    ensures var t := Run(s, [Start] + Round(DEPROVISION_STATE, false));
            && t.writer.Gone? && t.applied.None?
            && |t.log| > 0 && t.log[|t.log| - 1] == Removed(Encoded(DEPROVISION_STATE), None)
  {
    RunCons(s, Start, Round(DEPROVISION_STATE, false));
    RoundRuns(Next(s, Start), DEPROVISION_STATE, false);
  }

  /** The deprovision state shares its pair with the fail-closed wipe, and is still acted on right after
      one: its bytes differ. */
  lemma DeprovisionActsAfterWipe(s: State, written: bool)
    requires s.agent.Idle? && s.writer.Waiting? && s.last == Some(Encoded(WIPE))
    ensures PairOf(DEPROVISION_STATE) == PairOf(WIPE) == Pair(0, NoHash)
    ensures Run(s, Round(DEPROVISION_STATE, written)).writer.Gone?
    ensures Run(s, Round(DEPROVISION_STATE, written)).files == map[]
  {
    RoundRuns(s, DEPROVISION_STATE, written);
    assert RenderResult(s.files, []) == map[];
  }

  /** The writer dies after its acknowledgement, and its successor in the middle of the same render. */
  function TornAgain(d: Desired, left: Files): seq<Event> {
    [Start] + (Round(d, true)
    + ([Crash(map[])] + ([Start] + ([Tick] + ([Crash(left)] + ([Poll] + []))))))
  }

  /** Then nil is returned for a clear submission, rendered since, over whatever the second crash left. */
  lemma RestartTearsUnderNil(s: State, d: Desired, left: Files)
    requires Initial(s) && ValidPrincipals(d.principals) && !d.deprovision && Clear(s, d)
    ensures var t := Run(s, TornAgain(d, left));
            && |t.log| > 1 && t.log[1] == Submitted(d, true)
            && t.log[|t.log| - 1] == Returned(d, 1, left) && t.files == left
  {
    var rest := [Crash(map[])] + ([Start] + ([Tick] + ([Crash(left)] + ([Poll] + []))));
    var s1 := Next(s, Start);
    RunCons(s, Start, Round(d, true) + rest);
    RunAppend(s1, Round(d, true), rest);
    RoundRuns(s1, d, true);
    SuccessorTears(Run(s1, Round(d, true)), d, left);
  }

  lemma SuccessorTears(s: State, d: Desired, left: Files)
    requires s.writer.Waiting? && s.spool == Some(Encoded(d)) && s.applied == Some(OkStatus(d)) && s.agent.Polling?
    requires s.agent.d == d
    ensures var t := Run(s, [Crash(map[])] + ([Start] + ([Tick] + ([Crash(left)] + ([Poll] + [])))));
            t.files == left && t.log == s.log + [Started] + [Returned(d, s.agent.at, left)]
  {
    var s1 := Next(s, Crash(map[]));
    var s2 := Next(s1, Start);
    var s3 := Next(s2, Tick);
    var s4 := Next(s3, Crash(left));
    RunCons(s, Crash(map[]), [Start] + ([Tick] + ([Crash(left)] + ([Poll] + []))));
    RunCons(s1, Start, [Tick] + ([Crash(left)] + ([Poll] + [])));
    RunCons(s2, Tick, [Crash(left)] + ([Poll] + []));
    RunCons(s3, Crash(left), [Poll] + []);
    RunCons(s4, Poll, []);
  }

  const WIPE: Desired := Desired(0, NoHash, [], false)

  /** A confirmed fail-closed wipe, a policy whose status write fails, and a second wipe. */
  function StaleWipe(d: Desired): seq<Event> {
    [Start] + (Round(WIPE, true) + ([Poll] + (Round(d, false) + ([GiveUp] + ([Submit(WIPE, true)] + ([Poll] + []))))))
  }

  /** The second wipe resolves on the first one's status: nil is returned while the directory is still
      the one the policy rendered in between describes, not the empty one the wipe asks for. */
  lemma SecondWipeResolvesUnrendered(s: State, d: Desired)
    requires Initial(s) && ValidPrincipals(d.principals) && !d.deprovision && d != WIPE
    requires Ascending(d.principals) && exists p :: p in d.principals && p.callers != []
    ensures var t := Run(s, StaleWipe(d));
            && t.log != [] && t.log[|t.log| - 1].Returned? && t.log[|t.log| - 1].d == WIPE
            && Describes(t.files, d.principals) && !Describes(t.files, WIPE.principals)
  {
    var e3 := [GiveUp] + ([Submit(WIPE, true)] + ([Poll] + []));
    var e2 := [Poll] + (Round(d, false) + e3);
    var s1 := Next(s, Start);
    RunCons(s, Start, Round(WIPE, true) + e2);
    RunAppend(s1, Round(WIPE, true), e2);
    RoundRuns(s1, WIPE, true);
    var s2 := Run(s1, Round(WIPE, true));
    RunCons(s2, Poll, Round(d, false) + e3);
    var s3 := Next(s2, Poll);
    RunAppend(s3, Round(d, false), e3);
    RoundRuns(s3, d, false);
    SubmitOverStaleOk(Run(s3, Round(d, false)));
    StillThere(s3.files, d.principals);
  }

  lemma StillThere(files: Files, ps: seq<Principal>)
    requires Ascending(ps) && exists p :: p in ps && p.callers != []
    ensures Describes(RenderResult(files, ps), ps) && !Describes(RenderResult(files, ps), [])
  {
    RenderExactAscending(files, ps);
    var p :| p in ps && p.callers != [];
    assert p.username in RenderResult(files, ps);
  }

  lemma SubmitOverStaleOk(s: State)
    requires s.applied == Some(OkStatus(WIPE))
    ensures var t := Run(s, [GiveUp] + ([Submit(WIPE, true)] + ([Poll] + [])));
            && t.files == s.files
            && t.log == s.log + [Submitted(WIPE, false)] + [Returned(WIPE, |s.log|, s.files)]
  {
    var s1 := Next(s, GiveUp);
    var s2 := Next(s1, Submit(WIPE, true));
    RunCons(s, GiveUp, [Submit(WIPE, true)] + ([Poll] + []));
    RunCons(s1, Submit(WIPE, true), [Poll] + []);
    RunCons(s2, Poll, []);
  }
}
