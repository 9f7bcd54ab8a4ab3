/** internal/agent/payloadstore.go: versioned binaries, the current and previous pointers, and the
    quarantine, one file-system call at a time. */
module PayloadStore {
  import opened Text

  type Version = string
  type Chunk = nat

  /** versionPathComponent: walk the characters, and stop at the first that is not allowed. */
  method VersionPathComponent(version: Version) returns (ok: bool)
    ensures ok == ValidVersion(version)
    ensures ok <==> version != "" && version != "." && version != ".."
                    && forall c :: c in version ==> Alphanumeric(c) || c in "._+-"
    ensures ok ==> '/' !in version && '\\' !in version && '\0' !in version && ':' !in version
  {
    if version == "" || version == "." || version == ".." { return false; }
    for i := 0 to |version|
      invariant forall k :: 0 <= k < i ==> VersionChar(version[k]) && (Alphanumeric(version[k]) || version[k] in "._+-")
    {
      VersionCharIff(version[i]);
      if !VersionChar(version[i]) {
        assert version[i] in version;
        return false;
      }
    }
    return true;
  }

  /** An ASCII letter or digit, by code point. */
  predicate Alphanumeric(c: char) { 48 <= c as int <= 57 || 65 <= c as int <= 90 || 97 <= c as int <= 122 }

  lemma VersionCharIff(c: char)
    ensures VersionChar(c) <==> Alphanumeric(c) || c in "._+-"
  {
    var marks := "._+-";
    assert marks[0] == '.' && marks[1] == '_' && marks[2] == '+' && marks[3] == '-';
  }

  predicate VersionChar(c: char) {
    'a' <= c <= 'z' || 'A' <= c <= 'Z' || '0' <= c <= '9' || c == '.' || c == '_' || c == '+' || c == '-'
  }

  /** versionPathComponent accepts it. */
  predicate ValidVersion(v: Version) {
    v != "" && v != "." && v != ".." && forall i :: 0 <= i < |v| ==> VersionChar(v[i])
  }

  // ---------- the file system ----------

  datatype File = File(data: seq<Chunk>, executable: bool)
  datatype Path = Bin(v: Version) | StageTmp(v: Version, nonce: nat)
  datatype LinkName = Current | Previous | CurrentTmp | PreviousTmp

  /** Links always name a version's binary, so a link holds the version. */
  datatype Fs = Fs(files: map<Path, File>, links: map<LinkName, Version>, quarantine: set<Version>)

  datatype FsStep =
    | CreateTmp(v: Version, nonce: nat)
    | Append(v: Version, nonce: nat, chunk: Chunk)
    | Chmod(v: Version, nonce: nat)
    | Install(v: Version, nonce: nat)             // rename the temporary file over the binary
    | RemoveTmp(v: Version, nonce: nat)
    | RemoveLink(l: LinkName)
    | Symlink(l: LinkName, target: Version)
    | RenameLink(src: LinkName, dst: LinkName)
    | WriteQuarantine(v: Version)
    | Fsync

  function Exec1(fs: Fs, st: FsStep): Fs {
    match st
    case CreateTmp(v, n) => fs.(files := fs.files[StageTmp(v, n) := File([], false)])
    case Append(v, n, c) =>
      if StageTmp(v, n) !in fs.files then fs
      else var f := fs.files[StageTmp(v, n)]; fs.(files := fs.files[StageTmp(v, n) := f.(data := f.data + [c])])
    case Chmod(v, n) =>
      if StageTmp(v, n) !in fs.files then fs
      else fs.(files := fs.files[StageTmp(v, n) := fs.files[StageTmp(v, n)].(executable := true)])
    case Install(v, n) =>
      if StageTmp(v, n) !in fs.files then fs
      else fs.(files := (fs.files - {StageTmp(v, n)})[Bin(v) := fs.files[StageTmp(v, n)]])
    case RemoveTmp(v, n) => fs.(files := fs.files - {StageTmp(v, n)})
    case RemoveLink(l) => fs.(links := fs.links - {l})
    case Symlink(l, t) => if l in fs.links then fs else fs.(links := fs.links[l := t])
    case RenameLink(a, b) => if a !in fs.links then fs else fs.(links := (fs.links - {a})[b := fs.links[a]])
    case WriteQuarantine(v) => fs.(quarantine := fs.quarantine + {v})
    case Fsync => fs
  }

  function Exec(fs: Fs, steps: seq<FsStep>): Fs {
    if steps == [] then fs else Exec1(Exec(fs, steps[..|steps| - 1]), steps[|steps| - 1])
  }

  lemma {:induction false} ExecConcat(fs: Fs, a: seq<FsStep>, b: seq<FsStep>)
    ensures Exec(fs, a + b) == Exec(Exec(fs, a), b)
  {
    if b == [] {
      assert a + b == a;
    } else {
      ExecConcat(fs, a, b[..|b| - 1]);
      assert (a + b)[..|a + b| - 1] == a + b[..|b| - 1];
    }
  }

  lemma ExecSnoc(fs: Fs, a: seq<FsStep>, st: FsStep)
    ensures Exec(fs, a + [st]) == Exec1(Exec(fs, a), st)
  {
    assert (a + [st])[..|a|] == a;
  }

  // ---------- the operations as sequences of calls ----------

  datatype Op =
    | Stage(v: Version, nonce: nat, data: seq<Chunk>)
    | Activate(v: Version)
    | Rollback
    | Quarantine(v: Version)

  function Appends(v: Version, nonce: nat, data: seq<Chunk>): seq<FsStep> {
    seq(|data|, i requires 0 <= i < |data| => Append(v, nonce, data[i]))
  }

  function TmpOf(l: LinkName): LinkName {
    match l
    case Current => CurrentTmp
    case Previous => PreviousTmp
    case CurrentTmp => CurrentTmp
    case PreviousTmp => PreviousTmp
  }

  /** swapSymlink. */
  function Swap(l: LinkName, target: Version): seq<FsStep> {
    [RemoveLink(TmpOf(l)), Symlink(TmpOf(l), target), RenameLink(TmpOf(l), l)]
  }

  function StepsOf(fs: Fs, op: Op): seq<FsStep> {
    match op
    case Stage(v, n, data) =>
      if !ValidVersion(v) || StageTmp(v, n) in fs.files then []
      else [CreateTmp(v, n)] + Appends(v, n, data) + [Fsync, Chmod(v, n), Install(v, n), Fsync]
    case Activate(v) =>
      if !ValidVersion(v) || v in fs.quarantine || Bin(v) !in fs.files then []
      else (if Current in fs.links then Swap(Previous, fs.links[Current]) else []) + (Swap(Current, v) + [Fsync])
    case Rollback =>
      if Previous !in fs.links then [] else Swap(Current, fs.links[Previous]) + [Fsync]
    case Quarantine(v) =>
      if ValidVersion(v) then [WriteQuarantine(v)] else []
  }

  /** A version Stage and then Activate will accept. */
  predicate CanStage(fs: Fs, v: Version, nonce: nat) {
    ValidVersion(v) && v !in fs.quarantine && StageTmp(v, nonce) !in fs.files
  }

  /** Best-effort removals after a failed call touch temporaries only. */
  predicate IsCleanup(st: FsStep) {
    st.RemoveTmp? || (st.RemoveLink? && (st.l.CurrentTmp? || st.l.PreviousTmp?))
  }

  /** An operation that stopped after `k` of its calls, then possibly cleaned up. */
  datatype Attempt = Attempt(op: Op, k: nat, cleanup: seq<FsStep>)

  ghost predicate Possible(fs: Fs, a: Attempt) {
    a.k <= |StepsOf(fs, a.op)|
    && (forall st :: st in a.cleanup ==> IsCleanup(st))
    && (StepsOf(fs, a.op) == [] ==> a.cleanup == [])
  }

  ghost function After(fs: Fs, a: Attempt): Fs
    requires Possible(fs, a)
  {
    Exec(fs, StepsOf(fs, a.op)[..a.k] + a.cleanup)
  }

  // ---------- complete binaries ----------

  /** Every (version, bytes) ever handed to Stage. */
  type Offers = set<(Version, seq<Chunk>)>

  predicate CompleteFile(f: File, v: Version, offers: Offers) { f.executable && (v, f.data) in offers }

  /** The link resolves to a version whose binary is complete. */
  predicate Resolves(fs: Fs, l: LinkName, offers: Offers) {
    && l in fs.links
    && Bin(fs.links[l]) in fs.files
    && CompleteFile(fs.files[Bin(fs.links[l])], fs.links[l], offers)
  }

  ghost predicate Inv(fs: Fs, offers: Offers) {
    && (forall v: Version :: Bin(v) in fs.files ==> CompleteFile(fs.files[Bin(v)], v, offers))
    && (Current in fs.links ==> Bin(fs.links[Current]) in fs.files)
    && (Previous in fs.links ==> Bin(fs.links[Previous]) in fs.files)
  }

  /** Nothing that exists for readers goes away: binaries, pointers, quarantine marks. */
  ghost predicate Keeps(a: Fs, b: Fs) {
    && (forall v: Version :: Bin(v) in a.files ==> Bin(v) in b.files)
    && (Current in a.links ==> Current in b.links)
    && (Previous in a.links ==> Previous in b.links)
    && a.quarantine <= b.quarantine
  }

  /** A call that cannot hurt: it completes a complete file, or points at an existing binary. */
  ghost predicate SafeStep(fs: Fs, st: FsStep, offers: Offers) {
    match st
    case Install(v, n) => StageTmp(v, n) in fs.files && CompleteFile(fs.files[StageTmp(v, n)], v, offers)
    case RemoveLink(l) => l.CurrentTmp? || l.PreviousTmp?
    case Symlink(l, t) => l.CurrentTmp? || l.PreviousTmp?
    case RenameLink(a, b) => (a.CurrentTmp? || a.PreviousTmp?) && a in fs.links && Bin(fs.links[a]) in fs.files
    case _ => true
  }

  lemma SafeStepKeeps(fs: Fs, st: FsStep, offers: Offers)
    requires Inv(fs, offers) && SafeStep(fs, st, offers)
    ensures Inv(Exec1(fs, st), offers) && Keeps(fs, Exec1(fs, st))
  {
  }

  /** Every prefix of the calls is safe where it runs. */
  ghost predicate Safe(fs: Fs, steps: seq<FsStep>, offers: Offers) {
    forall k :: 0 <= k < |steps| ==> SafeStep(Exec(fs, steps[..k]), steps[k], offers)
  }

  lemma {:induction false} SafeRun(fs: Fs, steps: seq<FsStep>, offers: Offers)
    requires Inv(fs, offers) && Safe(fs, steps, offers)
    ensures Inv(Exec(fs, steps), offers) && Keeps(fs, Exec(fs, steps))
  {
    if steps != [] {
      var init := steps[..|steps| - 1];
      assert Safe(fs, init, offers) by {
        forall k | 0 <= k < |init| ensures SafeStep(Exec(fs, init[..k]), init[k], offers) {
          assert init[..k] == steps[..k];
        }
      }
      SafeRun(fs, init, offers);
      SafeStepKeeps(Exec(fs, init), steps[|steps| - 1], offers);
    }
  }

  lemma PrefixOfConcat(a: seq<FsStep>, b: seq<FsStep>, k: nat)
    requires k < |a + b|
    ensures k < |a| ==> (a + b)[..k] == a[..k] && (a + b)[k] == a[k]
    ensures k >= |a| ==> (a + b)[..k] == a + b[..k - |a|] && (a + b)[k] == b[k - |a|]
  {
  }

  lemma SafeConcat(fs: Fs, a: seq<FsStep>, b: seq<FsStep>, offers: Offers)
    requires Safe(fs, a, offers) && Safe(Exec(fs, a), b, offers)
    ensures Safe(fs, a + b, offers)
  {
    forall k | 0 <= k < |a + b| ensures SafeStep(Exec(fs, (a + b)[..k]), (a + b)[k], offers) {
      PrefixOfConcat(a, b, k);
      if k >= |a| { ExecConcat(fs, a, b[..k - |a|]); }
    }
  }

  lemma SafePrefix(fs: Fs, s: seq<FsStep>, k: nat, offers: Offers)
    requires Safe(fs, s, offers) && k <= |s|
    ensures Safe(fs, s[..k], offers)
  {
    forall i | 0 <= i < k ensures SafeStep(Exec(fs, s[..k][..i]), s[..k][i], offers) {
      assert s[..k][..i] == s[..i];
    }
  }

  /** Calls that are safe wherever they run. */
  predicate IsHarmless(st: FsStep) {
    IsCleanup(st) || st.CreateTmp? || st.Append? || st.Chmod? || st.Fsync? || st.WriteQuarantine?
  }

  lemma SafeAny(fs: Fs, s: seq<FsStep>, offers: Offers)
    requires forall st :: st in s ==> IsHarmless(st)
    ensures Safe(fs, s, offers)
  {
    forall k | 0 <= k < |s| ensures SafeStep(Exec(fs, s[..k]), s[k], offers) {
      assert s[k] in s;
    }
  }

  // ---------- each operation is safe ----------

  lemma {:induction false} AppendsEffect(fs: Fs, v: Version, n: nat, data: seq<Chunk>, base: Fs)
    requires base == Exec1(fs, CreateTmp(v, n))
    ensures Exec(base, Appends(v, n, data)) == base.(files := base.files[StageTmp(v, n) := File(data, false)])
  {
    if data == [] {
      assert base.files[StageTmp(v, n) := File([], false)] == base.files;
    } else {
      var init, c := data[..|data| - 1], data[|data| - 1];
      AppendsEffect(fs, v, n, init, base);
      assert Appends(v, n, data) == Appends(v, n, init) + [Append(v, n, c)];
      ExecSnoc(base, Appends(v, n, init), Append(v, n, c));
      assert init + [c] == data;
      UpdateTwice(base.files, StageTmp(v, n), File(init, false), File(data, false));
    }
  }

  lemma UpdateTwice(m: map<Path, File>, p: Path, f: File, g: File)
    ensures m[p := f][p := g] == m[p := g]
  {
  }

  /** The temporary file just before it is renamed into place. */
  lemma StagedFile(fs: Fs, v: Version, n: nat, data: seq<Chunk>)
    ensures var out := Exec(fs, [CreateTmp(v, n)] + Appends(v, n, data) + [Fsync, Chmod(v, n)]);
            StageTmp(v, n) in out.files && out.files[StageTmp(v, n)] == File(data, true)
  {
    var a, b := [CreateTmp(v, n)] + Appends(v, n, data), [Fsync, Chmod(v, n)];
    var base := Exec1(fs, CreateTmp(v, n));
    ExecConcat(fs, [CreateTmp(v, n)], Appends(v, n, data));
    ExecSnoc(fs, [], CreateTmp(v, n));
    assert [] + [CreateTmp(v, n)] == [CreateTmp(v, n)];
    AppendsEffect(fs, v, n, data, base);
    ExecConcat(fs, a, b);
    ExecSnoc(Exec(fs, a), [Fsync], Chmod(v, n));
    ExecSnoc(Exec(fs, a), [], Fsync);
    assert [] + [Fsync] == [Fsync] && [Fsync] + [Chmod(v, n)] == b;
  }

  lemma StageSafe(fs: Fs, v: Version, n: nat, data: seq<Chunk>, offers: Offers)
    requires (v, data) in offers
    ensures Safe(fs, StepsOf(fs, Stage(v, n, data)), offers)
  {
    var a, b := [CreateTmp(v, n)] + Appends(v, n, data) + [Fsync, Chmod(v, n)], [Install(v, n), Fsync];
    assert [CreateTmp(v, n)] + Appends(v, n, data) + [Fsync, Chmod(v, n), Install(v, n), Fsync] == a + b;
    SafeAny(fs, a, offers);
    StagedFile(fs, v, n, data);
    var mid := Exec(fs, a);
    assert Safe(mid, b, offers) by { assert b[..0] == []; }
    SafeConcat(fs, a, b, offers);
  }

  /** The three calls of a pointer swap, one after the other. */
  lemma SwapStates(fs: Fs, l: LinkName, target: Version)
    requires l.Current? || l.Previous?
    ensures var s := Swap(l, target);
            && Exec(fs, s[..0]) == fs
            && Exec(fs, s[..1]) == Exec1(fs, s[0])
            && Exec(fs, s[..2]) == Exec1(Exec1(fs, s[0]), s[1])
            && Exec(fs, s) == Exec1(Exec1(Exec1(fs, s[0]), s[1]), s[2])
  {
    var s := Swap(l, target);
    assert s[..0] == [] && s[..1] == [] + [s[0]] && s[..2] == s[..1] + [s[1]] && s == s[..2] + [s[2]];
    ExecSnoc(fs, [], s[0]);
    ExecSnoc(fs, s[..1], s[1]);
    ExecSnoc(fs, s[..2], s[2]);
  }

  lemma SwapSafe(fs: Fs, l: LinkName, target: Version, offers: Offers)
    requires (l.Current? || l.Previous?) && Bin(target) in fs.files
    ensures Safe(fs, Swap(l, target), offers)
    ensures var out := Exec(fs, Swap(l, target));
            && out.files == fs.files && out.quarantine == fs.quarantine
            && l in out.links && out.links[l] == target
            && out.links - {l, TmpOf(l)} == fs.links - {l, TmpOf(l)}
  {
    SwapStates(fs, l, target);
    SwapLinks(fs, l, target);
    var s, tmp := Swap(l, target), TmpOf(l);
    var mid := Exec1(Exec1(fs, s[0]), s[1]);
    assert mid.files == fs.files && tmp in mid.links && mid.links[tmp] == target;
    forall k | 0 <= k < |s| ensures SafeStep(Exec(fs, s[..k]), s[k], offers) {
      assert k == 0 || k == 1 || k == 2;
    }
    SwapFrame(fs.links, l, tmp, target);
  }

  lemma SwapFrame(links: map<LinkName, Version>, l: LinkName, tmp: LinkName, target: Version)
    ensures (links - {tmp})[l := target] - {l, tmp} == links - {l, tmp}
  {
  }

  lemma SwapLinks(fs: Fs, l: LinkName, target: Version)
    requires l.Current? || l.Previous?
    ensures var s := Swap(l, target);
            Exec1(Exec1(Exec1(fs, s[0]), s[1]), s[2]) == fs.(links := (fs.links - {TmpOf(l)})[l := target])
  {
    var links := fs.links - {TmpOf(l)};
    assert links[TmpOf(l) := target] - {TmpOf(l)} == links;
  }

  lemma FsyncLast(fs: Fs, s: seq<FsStep>, offers: Offers)
    requires Safe(fs, s, offers)
    ensures Safe(fs, s + [Fsync], offers) && Exec(fs, s + [Fsync]) == Exec(fs, s)
  {
    FsyncSafe(Exec(fs, s), offers);
    SafeConcat(fs, s, [Fsync], offers);
    ExecSnoc(fs, s, Fsync);
  }

  lemma FsyncSafe(fs: Fs, offers: Offers)
    ensures Safe(fs, [Fsync], offers)
  {
    assert [Fsync][0] == Fsync;
  }

  lemma ActivateSafe(fs: Fs, v: Version, offers: Offers)
    requires Inv(fs, offers)
    ensures Safe(fs, StepsOf(fs, Activate(v)), offers)
    ensures StepsOf(fs, Activate(v)) != [] ==>
      var out := Exec(fs, StepsOf(fs, Activate(v)));
      && Target(out, Current) == Some(v)
      && Target(out, Previous) == (if Current in fs.links then Target(fs, Current) else Target(fs, Previous))
      && out.files == fs.files && out.quarantine == fs.quarantine
  {
    if StepsOf(fs, Activate(v)) != [] {
      var a := if Current in fs.links then Swap(Previous, fs.links[Current]) else [];
      if Current in fs.links {
        SwapSafe(fs, Previous, fs.links[Current], offers);
      }
      var mid := Exec(fs, a);
      SwapSafe(mid, Current, v, offers);
      var out := Exec(mid, Swap(Current, v));
      KeptLink(out.links, mid.links, {Current, CurrentTmp}, Previous);
      FsyncLast(mid, Swap(Current, v), offers);
      SafeConcat(fs, a, Swap(Current, v) + [Fsync], offers);
      ExecConcat(fs, a, Swap(Current, v) + [Fsync]);
    }
  }

  lemma KeptLink(a: map<LinkName, Version>, b: map<LinkName, Version>, gone: set<LinkName>, l: LinkName)
    requires a - gone == b - gone && l !in gone
    ensures l in a <==> l in b
    ensures l in a ==> a[l] == b[l]
  {
    assert l in a <==> l in a - gone;
    assert l in b <==> l in b - gone;
    if l in a { assert (a - gone)[l] == a[l] && (b - gone)[l] == b[l]; }
  }

  lemma RollbackSafe(fs: Fs, offers: Offers)
    requires Inv(fs, offers)
    ensures Safe(fs, StepsOf(fs, Rollback), offers)
    ensures Previous in fs.links ==>
      var out := Exec(fs, StepsOf(fs, Rollback));
      && Target(out, Current) == Target(out, Previous) == Target(fs, Previous)
      && out.files == fs.files && out.quarantine == fs.quarantine
  {
    if Previous in fs.links {
      SwapSafe(fs, Current, fs.links[Previous], offers);
      KeptLink(Exec(fs, Swap(Current, fs.links[Previous])).links, fs.links, {Current, CurrentTmp}, Previous);
      FsyncLast(fs, Swap(Current, fs.links[Previous]), offers);
    }
  }

  function OffersAfter(offers: Offers, op: Op): Offers {
    if op.Stage? then offers + {(op.v, op.data)} else offers
  }

  lemma OpSafe(fs: Fs, op: Op, offers: Offers)
    requires Inv(fs, offers)
    ensures Safe(fs, StepsOf(fs, op), OffersAfter(offers, op))
  {
    match op
    case Stage(v, n, data) => StageSafe(fs, v, n, data, OffersAfter(offers, op));
    case Activate(v) => ActivateSafe(fs, v, offers);
    case Rollback => RollbackSafe(fs, offers);
    case Quarantine(v) => SafeAny(fs, StepsOf(fs, op), offers);
  }

  /** Stopping anywhere inside one operation is harmless. */
  lemma AttemptKeeps(fs: Fs, a: Attempt, offers: Offers)
    requires Inv(fs, offers) && Possible(fs, a)
    ensures Inv(After(fs, a), OffersAfter(offers, a.op)) && Keeps(fs, After(fs, a))
  {
    var offers' := OffersAfter(offers, a.op);
    var steps := StepsOf(fs, a.op)[..a.k];
    OpSafe(fs, a.op, offers);
    SafePrefix(fs, StepsOf(fs, a.op), a.k, offers');
    SafeAny(Exec(fs, steps), a.cleanup, offers');
    SafeConcat(fs, steps, a.cleanup, offers');
    SafeRun(fs, steps + a.cleanup, offers');
  }

  /** The cleanup after a failed call takes the temporary file, or the temporary link, away. */
  lemma CleanupRemoves(fs: Fs, a: Attempt, st: FsStep)
    requires Possible(fs, a) && a.cleanup == [st] && IsCleanup(st)
    ensures st.RemoveTmp? ==> StageTmp(st.v, st.nonce) !in After(fs, a).files
    ensures st.RemoveLink? ==> st.l !in After(fs, a).links
  {
    ExecSnoc(fs, StepsOf(fs, a.op)[..a.k], st);
  }

  // ---------- every run ----------

  ghost predicate PossibleRun(fs: Fs, run: seq<Attempt>)
    decreases |run|
  {
    run == [] || (Possible(fs, run[0]) && PossibleRun(After(fs, run[0]), run[1..]))
  }

  ghost function AfterRun(fs: Fs, run: seq<Attempt>): Fs
    requires PossibleRun(fs, run)
    decreases |run|
  {
    if run == [] then fs else AfterRun(After(fs, run[0]), run[1..])
  }

  function OffersAfterRun(offers: Offers, run: seq<Attempt>): Offers
    decreases |run|
  {
    if run == [] then offers else OffersAfterRun(OffersAfter(offers, run[0].op), run[1..])
  }

  lemma {:induction false} RunKeeps(fs: Fs, run: seq<Attempt>, offers: Offers)
    requires Inv(fs, offers) && PossibleRun(fs, run)
    ensures Inv(AfterRun(fs, run), OffersAfterRun(offers, run)) && Keeps(fs, AfterRun(fs, run))
    decreases |run|
  {
    if run != [] {
      AttemptKeeps(fs, run[0], offers);
      RunKeeps(After(fs, run[0]), run[1..], OffersAfter(offers, run[0].op));
    }
  }

  /** Crash safety: once current resolves to a complete binary it does so after any number of
      operations, each stopped after any of its calls; previous, when present, does too. */
  lemma CurrentAlwaysResolves(fs: Fs, run: seq<Attempt>, offers: Offers)
    requires Inv(fs, offers) && Current in fs.links && PossibleRun(fs, run)
    ensures var out, all := AfterRun(fs, run), OffersAfterRun(offers, run);
            Resolves(out, Current, all) && (Previous in out.links ==> Resolves(out, Previous, all))
  {
    RunKeeps(fs, run, offers);
  }

  /** A version quarantined at any earlier point is never made current by Activate. */
  lemma QuarantinedNeverActivated(fs: Fs, run: seq<Attempt>, offers: Offers, v: Version, last: Attempt)
    requires Inv(fs, offers) && PossibleRun(fs, run) && v in fs.quarantine
    requires last.op == Activate(v) && Possible(AfterRun(fs, run), last)
    ensures After(AfterRun(fs, run), last) == AfterRun(fs, run)
  {
    RunKeeps(fs, run, offers);
    assert StepsOf(AfterRun(fs, run), last.op) == [];
  }

  lemma EmptyStoreInv()
    ensures Inv(Fs(map[], map[], {}), {})
  {
  }

  /** A finished Stage makes its version complete; a finished Activate and Rollback move the pointers. */
  lemma StageCompletes(fs: Fs, v: Version, n: nat, data: seq<Chunk>)
    requires ValidVersion(v) && StageTmp(v, n) !in fs.files
    ensures var out := Exec(fs, StepsOf(fs, Stage(v, n, data)));
            && Bin(v) in out.files && out.files[Bin(v)] == File(data, true)
            && out.links == fs.links && out.quarantine == fs.quarantine && StageTmp(v, n) !in out.files
  {
    var a := [CreateTmp(v, n)] + Appends(v, n, data) + [Fsync, Chmod(v, n)];
    assert StepsOf(fs, Stage(v, n, data)) == a + [Install(v, n)] + [Fsync];
    StagedFile(fs, v, n, data);
    ExecSnoc(fs, a + [Install(v, n)], Fsync);
    ExecSnoc(fs, a, Install(v, n));
    LinksUntouched(fs, a);
  }

  lemma {:induction false} LinksUntouched(fs: Fs, s: seq<FsStep>)
    requires forall st :: st in s ==> st.CreateTmp? || st.Append? || st.Chmod? || st.Fsync?
    ensures Exec(fs, s).links == fs.links && Exec(fs, s).quarantine == fs.quarantine
  {
    if s != [] {
      assert s[|s| - 1] in s;
      LinksUntouched(fs, s[..|s| - 1]);
    }
  }

  // ---------- what readers of the pointers can see ----------

  function Target(fs: Fs, l: LinkName): Option<Version> { if l in fs.links then Some(fs.links[l]) else None }

  /** A swap is invisible until its rename, and complete with it. */
  lemma SwapVisible(fs: Fs, l: LinkName, target: Version, k: nat)
    requires (l.Current? || l.Previous?) && k <= 3
    ensures var out := Exec(fs, Swap(l, target)[..k]);
            && Target(out, l) == (if k < 3 then Target(fs, l) else Some(target))
            && (forall l': LinkName :: (l'.Current? || l'.Previous?) && l' != l ==> Target(out, l') == Target(fs, l'))
  {
    SwapStates(fs, l, target);
    assert Swap(l, target)[..3] == Swap(l, target);
    assert k == 0 || k == 1 || k == 2 || k == 3;
  }

  /** Stopped anywhere, Activate has moved nothing, or previous only, or previous and then current. */
  ghost predicate MovedInOrder(fs: Fs, out: Fs, v: Version) {
    var cur := Target(fs, Current);
    || (Target(out, Current) == cur && Target(out, Previous) == Target(fs, Previous))
    || (Target(out, Current) == cur && Target(out, Previous) == cur)
    || (Target(out, Current) == Some(v) && Target(out, Previous) == cur)
  }

  lemma ActivateMovesInOrder(fs: Fs, v: Version, k: nat)
    requires Current in fs.links && StepsOf(fs, Activate(v)) != [] && k <= |StepsOf(fs, Activate(v))|
    ensures MovedInOrder(fs, Exec(fs, StepsOf(fs, Activate(v))[..k]), v)
  {
    var a, b := Swap(Previous, fs.links[Current]), Swap(Current, v) + [Fsync];
    assert StepsOf(fs, Activate(v)) == a + b;
    if k <= 3 {
      assert (a + b)[..k] == a[..k];
      SwapVisible(fs, Previous, fs.links[Current], k);
    } else {
      assert (a + b)[..k] == a + b[..k - 3] && a[..3] == a;
      ExecConcat(fs, a, b[..k - 3]);
      SwapVisible(fs, Previous, fs.links[Current], 3);
      SecondSwapVisible(Exec(fs, a), v, k - 3);
    }
  }

  lemma SecondSwapVisible(mid: Fs, v: Version, k: nat)
    requires 0 < k <= 4
    ensures var out := Exec(mid, (Swap(Current, v) + [Fsync])[..k]);
            && Target(out, Current) == (if k < 3 then Target(mid, Current) else Some(v))
            && Target(out, Previous) == Target(mid, Previous)
  {
    var s := Swap(Current, v);
    SwapVisible(mid, Current, v, if k < 3 then k else 3);
    if k <= 3 {
      assert (s + [Fsync])[..k] == s[..k];
    } else {
      assert (s + [Fsync])[..4] == s + [Fsync] && s[..3] == s;
      ExecSnoc(mid, s, Fsync);
    }
  }

  lemma QuarantineKeepsLinks(fs: Fs, a: Attempt)
    requires a.op.Quarantine? && Possible(fs, a) && a.cleanup == []
    ensures After(fs, a).links == fs.links
  {
    var plan := StepsOf(fs, a.op);
    if a.k == 0 {
      assert plan[..0] + [] == [];
    } else {
      assert plan[..1] + [] == [] + [WriteQuarantine(a.op.v)];
      ExecSnoc(fs, [], WriteQuarantine(a.op.v));
    }
  }

  lemma CompleteAttempt(fs: Fs, a: Attempt)
    requires Possible(fs, a) && a.k == |StepsOf(fs, a.op)| && a.cleanup == []
    ensures After(fs, a) == Exec(fs, StepsOf(fs, a.op))
  {
    assert StepsOf(fs, a.op)[..a.k] + [] == StepsOf(fs, a.op);
  }

  lemma RollbackDone(fs: Fs, a: Attempt, offers: Offers)
    requires Inv(fs, offers) && a.op == Rollback && Possible(fs, a) && Previous in fs.links
    requires a.k == |StepsOf(fs, a.op)| && a.cleanup == []
    ensures Current in After(fs, a).links && After(fs, a).links[Current] == fs.links[Previous]
  {
    RollbackSafe(fs, offers);
    CompleteAttempt(fs, a);
  }

  lemma ActivateDone(fs: Fs, a: Attempt, v: Version, offers: Offers)
    requires Inv(fs, offers) && a.op == Activate(v) && Possible(fs, a)
    requires a.k == |StepsOf(fs, a.op)| > 0 && a.cleanup == []
    ensures Current in After(fs, a).links && After(fs, a).links[Current] == v
  {
    ActivateSafe(fs, v, offers);
    CompleteAttempt(fs, a);
  }

  // ---------- the operations as code ----------

  class Store {
    var fs: Fs

    constructor ()
      ensures fs == Fs(map[], map[], {})
    {
      fs := Fs(map[], map[], {});
    }

    /** One file-system call of a plan: done, or failed with nothing changed. */
    method Call(st: FsStep, reliable: bool, ghost base: Fs, ghost plan: seq<FsStep>, ghost k: nat) returns (ok: bool)
      requires k < |plan| && plan[k] == st && fs == Exec(base, plan[..k])
      modifies this
      ensures fs == Exec(base, plan[..if ok then k + 1 else k])
      ensures reliable ==> ok
    {
      ok := *;
      if reliable { ok := true; }
      if ok {
        assert plan[..k + 1] == plan[..k] + [st];
        ExecSnoc(base, plan[..k], st);
        fs := Exec1(fs, st);
      }
    }

    /** Stage: returns how far it got; `ok` only after every call. */
    method Stage(v: Version, nonce: nat, data: seq<Chunk>, reliable: bool) returns (ok: bool, ghost a: Attempt)
      modifies this
      ensures a.op == Op.Stage(v, nonce, data) && Possible(old(fs), a) && fs == After(old(fs), a)
      ensures ok ==> a.k == |StepsOf(old(fs), a.op)| > 0 && a.cleanup == []
      ensures reliable && ValidVersion(v) && StageTmp(v, nonce) !in old(fs).files ==> ok
    {
      ghost var op := Op.Stage(v, nonce, data);
      ghost var base, plan := fs, StepsOf(fs, op);
      a := Attempt(op, 0, []);
      assert plan[..0] + [] == [];
      if !ValidVersion(v) || StageTmp(v, nonce) in fs.files { return false, a; }
      ok := Call(CreateTmp(v, nonce), reliable, base, plan, 0);
      if !ok { return; }
      ok, a := WriteChunks(v, nonce, data, reliable, op, base, plan);
      if !ok { return; }
      ok, a := SyncAndChmod(v, nonce, reliable, op, base, plan, 1 + |data|);
      if !ok { return; }
      ok, a := Publish(v, nonce, reliable, op, base, plan, 3 + |data|);
    }

    /** io.Copy into the temporary file. */
    method WriteChunks(v: Version, nonce: nat, data: seq<Chunk>, reliable: bool,
                       ghost op: Op, ghost base: Fs, ghost plan: seq<FsStep>)
      returns (ok: bool, ghost a: Attempt)
      requires op == Op.Stage(v, nonce, data) && plan == StepsOf(base, op) && plan != [] && fs == Exec(base, plan[..1])
      modifies this
      ensures ok ==> fs == Exec(base, plan[..1 + |data|])
      ensures reliable ==> ok
      ensures !ok ==> a.op == op && Possible(base, a) && fs == After(base, a)
    {
      ok, a := true, Attempt(op, 0, []);
      for i := 0 to |data|
        invariant fs == Exec(base, plan[..1 + i])
      {
        assert plan[1 + i] == Appends(v, nonce, data)[i];
        ok := Call(Append(v, nonce, data[i]), reliable, base, plan, 1 + i);
        if !ok { a := CleanUp(RemoveTmp(v, nonce), op, base, plan, 1 + i); return; }
      }
      ok := true;
    }

    /** Sync and make executable. */
    method SyncAndChmod(v: Version, nonce: nat, reliable: bool,
                        ghost op: Op, ghost base: Fs, ghost plan: seq<FsStep>, ghost k: nat)
      returns (ok: bool, ghost a: Attempt)
      requires plan == StepsOf(base, op) && 0 < k && k + 2 <= |plan| && fs == Exec(base, plan[..k])
      requires plan[k] == Fsync && plan[k + 1] == Chmod(v, nonce)
      modifies this
      ensures ok ==> fs == Exec(base, plan[..k + 2])
      ensures !ok ==> a.op == op && Possible(base, a) && fs == After(base, a)
      ensures reliable ==> ok
    {
      a := Attempt(op, 0, []);
      ok := Call(Fsync, reliable, base, plan, k);
      if !ok { a := CleanUp(RemoveTmp(v, nonce), op, base, plan, k); return; }
      ok := Call(Chmod(v, nonce), reliable, base, plan, k + 1);
      if !ok { a := CleanUp(RemoveTmp(v, nonce), op, base, plan, k + 1); }
    }

    /** Rename into place, sync the directory. */
    method Publish(v: Version, nonce: nat, reliable: bool,
                   ghost op: Op, ghost base: Fs, ghost plan: seq<FsStep>, ghost k: nat)
      returns (ok: bool, ghost a: Attempt)
      requires plan == StepsOf(base, op) && 0 < k && |plan| == k + 2 && fs == Exec(base, plan[..k])
      requires plan[k] == Install(v, nonce) && plan[k + 1] == Fsync
      modifies this
      ensures a.op == op && Possible(base, a) && fs == After(base, a)
      ensures ok ==> a.k == |plan| && a.cleanup == []
      ensures reliable ==> ok
    {
      ok := Call(Install(v, nonce), reliable, base, plan, k);
      if !ok { a := CleanUp(RemoveTmp(v, nonce), op, base, plan, k); return; }
      ok := Call(Fsync, reliable, base, plan, k + 1);
      ghost var done := if ok then k + 2 else k + 1;
      assert plan[..done] + [] == plan[..done];
      a := Attempt(op, done, []);
    }

    /** The deferred removal of a temporary, which a crash may skip. */
    method CleanUp(st: FsStep, ghost op: Op, ghost base: Fs, ghost plan: seq<FsStep>, ghost k: nat)
      returns (ghost a: Attempt)
      requires IsCleanup(st) && plan == StepsOf(base, op) && 0 < k <= |plan| && fs == Exec(base, plan[..k])
      modifies this
      ensures a.op == op && Possible(base, a) && fs == After(base, a)
    {
      if * {
        ExecSnoc(base, plan[..k], st);
        fs := Exec1(fs, st);
        a := Attempt(op, k, [st]);
      } else {
        assert plan[..k] + [] == plan[..k];
        a := Attempt(op, k, []);
      }
    }

    /** swapSymlink, as the calls k, k+1, k+2 of a plan. */
    method SwapSymlink(l: LinkName, target: Version, reliable: bool,
                       ghost op: Op, ghost base: Fs, ghost plan: seq<FsStep>, ghost k: nat)
      returns (ok: bool, ghost a: Attempt)
      requires l.Current? || l.Previous?
      requires plan == StepsOf(base, op) && k + 3 <= |plan| && plan[k..k + 3] == Swap(l, target)
      requires fs == Exec(base, plan[..k])
      modifies this
      ensures ok ==> fs == Exec(base, plan[..k + 3])
      ensures reliable ==> ok
      ensures !ok ==> a.op == op && Possible(base, a) && fs == After(base, a)
    {
      ghost var swap := plan[k..k + 3];
      assert plan[k] == swap[0] && plan[k + 1] == swap[1] && plan[k + 2] == swap[2];
      a := Attempt(op, k, []);
      assert plan[..k] + [] == plan[..k];
      ok := Call(RemoveLink(TmpOf(l)), reliable, base, plan, k);
      if !ok { return; }
      ok := Call(Symlink(TmpOf(l), target), reliable, base, plan, k + 1);
      if !ok { a := CleanUp(RemoveLink(TmpOf(l)), op, base, plan, k + 1); return; }
      ok := Call(RenameLink(TmpOf(l), l), reliable, base, plan, k + 2);
      if !ok { a := CleanUp(RemoveLink(TmpOf(l)), op, base, plan, k + 2); }
    }

    /** Activate: previous takes current's target, then current takes the new one. */
    method Activate(v: Version, reliable: bool) returns (ok: bool, ghost a: Attempt)
      modifies this
      ensures a.op == Op.Activate(v) && Possible(old(fs), a) && fs == After(old(fs), a)
      ensures ok ==> a.k == |StepsOf(old(fs), a.op)| > 0 && a.cleanup == []
      ensures reliable && ValidVersion(v) && v !in old(fs).quarantine && Bin(v) in old(fs).files ==> ok
    {
      ghost var op := Op.Activate(v);
      ghost var base, plan := fs, StepsOf(fs, op);
      a := Attempt(op, 0, []);
      assert plan[..0] + [] == [];
      if !ValidVersion(v) || v in fs.quarantine || Bin(v) !in fs.files { return false, a; }
      ghost var k := 0;
      if Current in fs.links {
        assert plan[0..3] == Swap(Previous, fs.links[Current]);
        ok, a := SwapSymlink(Previous, fs.links[Current], reliable, op, base, plan, 0);
        if !ok { return; }
        k := 3;
      }
      assert plan[k..k + 3] == Swap(Current, v);
      ok, a := SwapSymlink(Current, v, reliable, op, base, plan, k);
      if !ok { return; }
      ok := Call(Fsync, reliable, base, plan, k + 3);
      ghost var done := if ok then k + 4 else k + 3;
      assert plan[..done] + [] == plan[..done];
      a := Attempt(op, done, []);
    }

    /** Rollback: current takes previous's target. */
    method Rollback(reliable: bool) returns (r: Option<Version>, ghost a: Attempt)
      modifies this
      ensures a.op == Op.Rollback && Possible(old(fs), a) && fs == After(old(fs), a)
      ensures r.Some? ==> Previous in old(fs).links && r.value == old(fs).links[Previous]
      ensures r.Some? ==> a.k == |StepsOf(old(fs), a.op)| && a.cleanup == []
      ensures reliable && Previous in old(fs).links ==> r.Some?
    {
      ghost var op := Op.Rollback;
      ghost var base, plan := fs, StepsOf(fs, op);
      a := Attempt(op, 0, []);
      assert plan[..0] + [] == [];
      if Previous !in fs.links { return None, a; }
      var prev := fs.links[Previous];
      assert plan[0..3] == Swap(Current, prev);
      var ok: bool;
      ok, a := SwapSymlink(Current, prev, reliable, op, base, plan, 0);
      if !ok { return None, a; }
      ok := Call(Fsync, reliable, base, plan, 3);
      ghost var done := if ok then 4 else 3;
      assert plan[..done] + [] == plan[..done];
      a := Attempt(op, done, []);
      r := if ok then Some(prev) else None;
    }

    method Quarantine(v: Version, reliable: bool) returns (ok: bool, ghost a: Attempt)
      modifies this
      ensures a.op == Op.Quarantine(v) && Possible(old(fs), a) && fs == After(old(fs), a)
      ensures a.cleanup == []
      ensures reliable && ValidVersion(v) ==> ok
      ensures ok ==> fs == old(fs).(quarantine := old(fs).quarantine + {v})
    {
      ghost var op := Op.Quarantine(v);
      ghost var base, plan := fs, StepsOf(fs, op);
      a := Attempt(op, 0, []);
      assert plan[..0] + [] == [];
      if !ValidVersion(v) { return false, a; }
      ok := Call(WriteQuarantine(v), reliable, base, plan, 0);
      ghost var done := if ok then 1 else 0;
      assert plan[..done] + [] == plan[..done];
      assert plan[..1] == [] + [WriteQuarantine(v)];
      ExecSnoc(base, [], WriteQuarantine(v));
      a := Attempt(op, done, []);
    }
  }
}
