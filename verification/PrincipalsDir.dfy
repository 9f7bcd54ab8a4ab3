/** internal/agent/policy.go: validation, and the rewrite of the principals directory. */
module PrincipalsDir {
  import opened Text
  import opened PolicyHash
  import opened Policy

  // ---------- validators ----------

  predicate CallerChar(c: char) {
    !IsSpace(c) && c != ',' && c != '*' && c != '?' && c != '[' && c != ']'
  }

  /** validateCallerTokenID. */
  predicate ValidCaller(s: string) {
    s != "" && forall i :: 0 <= i < |s| ==> CallerChar(s[i])
  }

  predicate UsernameChar(c: char) {
    c != '/' && c != '\\' && c != '\0' && c != '\n' && c != '\r' && c != '\t' && c != ' '
  }

  /** validateUsername. */
  predicate ValidUsername(s: string) {
    s != "" && (forall i :: 0 <= i < |s| ==> UsernameChar(s[i])) && s != "." && s != ".."
  }

  predicate ValidPrincipals(ps: seq<Principal>) {
    forall p :: p in ps ==> ValidUsername(p.username) && forall c :: c in p.callers ==> ValidCaller(c)
  }

  /** validateCallerTokenID, character by character. */
  method ValidateCallerTokenID(s: string) returns (ok: bool)
    ensures ok == ValidCaller(s)
    ensures ok <==> s != "" && forall c :: c in s ==> !IsSpace(c) && c !in ",*?[]"
  {
    if s == "" { return false; }
    for i := 0 to |s|
      invariant forall k :: 0 <= k < i ==> CallerChar(s[k])
    {
      if IsSpace(s[i]) || s[i] == ',' || s[i] == '*' || s[i] == '?' || s[i] == '[' || s[i] == ']' { return false; }
    }
    return true;
  }

  /** validateUsername refuses exactly the empty name, the two dot names, and names with a separator of
      either kind, a NUL, or white space that could break a line or a path. */
  lemma ValidUsernameIff(s: string)
    ensures ValidUsername(s) <==>
            s != "" && s != "." && s != ".." && forall c :: c in "/\\\0\n\r\t " ==> c !in s
  {
    if ValidUsername(s) {
      forall c | c in "/\\\0\n\r\t " ensures c !in s { }
    }
    if forall c :: c in "/\\\0\n\r\t " ==> c !in s {
      UnsafeChars();
    }
  }

  lemma UnsafeChars()
    ensures var bad := "/\\\0\n\r\t ";
            '/' in bad && '\\' in bad && '\0' in bad && '\n' in bad && '\r' in bad && '\t' in bad && ' ' in bad
  {
    var bad := "/\\\0\n\r\t ";
    assert bad[0] == '/' && bad[1] == '\\' && bad[2] == '\0' && bad[3] == '\n';
    assert bad[4] == '\r' && bad[5] == '\t' && bad[6] == ' ';
  }

  /** Matching a pattern with `*` and `?`; a `[` may begin a class and is taken to match anything. */
  predicate Glob(p: string, s: string)
    decreases |p| + |s|
  {
    if p == "" then s == ""
    else if p[0] == '*' || p[0] == '[' then Glob(p[1..], s) || (s != "" && Glob(p, s[1..]))
    else s != "" && (p[0] == '?' || p[0] == s[0]) && Glob(p[1..], s[1..])
  }

  /** One entry of a comma-separated list of patterns matches. */
  ghost predicate ListMatches(list: string, s: string) {
    exists i, j :: 0 <= i <= j <= |list| && IsEntry(list, i, j) && Glob(list[i..j], s)
  }

  ghost predicate IsEntry(list: string, i: int, j: int)
    requires 0 <= i <= j <= |list|
  {
    (i == 0 || list[i - 1] == ',') && (j == |list| || list[j] == ',') && ',' !in list[i..j]
  }

  lemma {:induction false} PlainGlob(p: string, s: string)
    requires forall i :: 0 <= i < |p| ==> CallerChar(p[i])
    ensures Glob(p, s) <==> s == p
    decreases |p|
  {
    if p != "" && s != "" {
      PlainGlob(p[1..], s[1..]);
      assert p == [p[0]] + p[1..] && s == [s[0]] + s[1..];
    }
  }

  /** A caller id that passes is a pattern list that only it matches, and it is one word. */
  lemma CallerMatchesOnlyItself(c: string, s: string)
    requires ValidCaller(c)
    ensures ListMatches(c, s) <==> s == c
    ensures forall i :: 0 <= i < |c| ==> !IsSpace(c[i])
  {
    PlainGlob(c, s);
    assert forall i :: 0 <= i < |c| ==> c[i] != ',';
    assert c[0..|c|] == c && IsEntry(c, 0, |c|);
  }

  // ---------- what a rewrite leaves ----------

  type Files = map<string, string>

  function TmpName(username: string): string { username + ".tmp" }

  /** One user of the payload: remove the file, or replace it through `<user>.tmp`. */
  function WriteOne(files: Files, p: Principal): Files {
    if p.callers == [] then files - {p.username}
    else (files - {TmpName(p.username)})[p.username := Terminated(p.callers)]
  }

  function WriteAll(files: Files, ps: seq<Principal>): Files {
    if ps == [] then files else WriteOne(WriteAll(files, ps[..|ps| - 1]), ps[|ps| - 1])
  }

  function Names(ps: seq<Principal>): set<string> { set p | p in ps :: p.username }

  function Emptied(ps: seq<Principal>): set<string> { set p | p in ps && p.callers == [] :: p.username }

  /** wantUsers after the write loop. */
  function Wanted(ps: seq<Principal>): set<string> {
    Names(ps) - Emptied(ps)
  }

  function Keep(files: Files, names: set<string>): Files {
    map n | n in files && n in names :: files[n]
  }

  function RenderResult(files: Files, ps: seq<Principal>): Files {
    Keep(WriteAll(files, ps), Wanted(ps))
  }

  /** The directory a policy describes: one file per user with callers, one line per caller. */
  ghost predicate Describes(files: Files, ps: seq<Principal>) {
    && (forall n :: n in files <==> exists p :: p in ps && p.username == n && p.callers != [])
    && (forall p :: p in ps && p.callers != [] && p.username in files ==> files[p.username] == Terminated(p.callers))
  }

  // ---------- where a rewrite can stop ----------

  /** A user's file half replaced: the temporary file holds the first lines, or was cleaned up. */
  ghost predicate HalfDone(base: Files, username: string, callers: seq<string>, mid: Files) {
    || mid == base - {TmpName(username)}
    || exists k :: 0 <= k <= |callers| && mid == base[TmpName(username) := Terminated(callers[..k])]
  }

  /** One user not finished. */
  ghost predicate Interrupted(base: Files, p: Principal, mid: Files) {
    mid == base || (p.callers != [] && HalfDone(base, p.username, p.callers, mid))
  }

  /** Between users, or at ps[i], which is being replaced. */
  ghost predicate WritingAt(files: Files, ps: seq<Principal>, i: int, mid: Files)
    requires 0 <= i <= |ps|
  {
    var base := WriteAll(files, ps[..i]);
    mid == base || (i < |ps| && Interrupted(base, ps[i], mid))
  }

  ghost predicate StopsWriting(files: Files, ps: seq<Principal>, mid: Files) {
    exists i :: 0 <= i <= |ps| && WritingAt(files, ps, i, mid)
  }

  /** All users written, some unwanted entries still there. */
  ghost predicate StopsSweeping(files: Files, ps: seq<Principal>, mid: Files) {
    exists rest: set<string> :: mid == Keep(WriteAll(files, ps), Wanted(ps) + rest)
  }

  /** Every directory a rewrite passes through, and so may leave when it fails or is cut off. */
  ghost predicate Stop(files: Files, ps: seq<Principal>, mid: Files) {
    StopsWriting(files, ps, mid) || StopsSweeping(files, ps, mid)
  }

  /** How one rewrite of a valid policy goes: it succeeds, or fails and leaves whatever it left. */
  datatype Outcome = Success | Failure(left: Files)

  /** Whether a file-system call succeeds is up to the environment, unless that is reliable. */
  method IoStep(reliable: bool) returns (ok: bool)
    ensures reliable ==> ok
  {
    ok := *;
    if reliable { ok := true; }
  }

  class Directory {
    var files: Files

    constructor (initial: Files)
      ensures files == initial
    {
      files := initial;
    }

    /** atomicWritePrincipals: fill `<user>.tmp` line by line, then rename it over the live file. */
    method AtomicWritePrincipals(username: string, callers: seq<string>, reliable: bool) returns (ok: bool)
      modifies this
      ensures ok ==> files == (old(files) - {TmpName(username)})[username := Terminated(callers)]
      ensures !ok ==> files == old(files) || HalfDone(old(files), username, callers, files)
      ensures reliable ==> ok
    {
      var tmp := TmpName(username);
      ok := IoStep(reliable);
      if !ok { return; }
      files := files[tmp := ""];
      for i := 0 to |callers|
        invariant files == old(files)[tmp := Terminated(callers[..i])]
      {
        ok := IoStep(reliable);
        if !ok {
          if * { files := files - {tmp}; }
          return;
        }
        assert callers[..i + 1][..i] == callers[..i];
        files := files[tmp := files[tmp] + callers[i] + "\n"];
      }
      assert callers[..|callers|] == callers;
      // fsync, close, ACL, rename: any of them may fail, with or without the cleanup happening.
      ok := IoStep(reliable);
      if !ok {
        if * { files := files - {tmp}; }
        return;
      }
      var content := files[tmp];
      files := (files - {tmp})[username := content];
    }

    /** One user of the write loop: remove the file of a user without callers, or replace it. */
    method WriteUser(p: Principal, reliable: bool) returns (ok: bool)
      modifies this
      ensures ok ==> files == WriteOne(old(files), p)
      ensures !ok ==> Interrupted(old(files), p, files)
      ensures reliable ==> ok
    {
      if p.callers == [] {
        ok := IoStep(reliable);
        if ok { files := files - {p.username}; }
      } else {
        ok := AtomicWritePrincipals(p.username, p.callers, reliable);
      }
    }

    /** The write loop: every user in payload order, tracking which names to keep. */
    method WriteUsers(ps: seq<Principal>, reliable: bool) returns (ok: bool, want: set<string>)
      modifies this
      ensures ok ==> files == WriteAll(old(files), ps) && want == Wanted(ps)
      ensures !ok ==> StopsWriting(old(files), ps, files)
      ensures reliable ==> ok
    {
      want := Names(ps);
      ok := true;
      for i := 0 to |ps|
        invariant ok
        invariant files == WriteAll(old(files), ps[..i])
        invariant want == Names(ps) - Emptied(ps[..i])
      {
        ok := WriteUser(ps[i], reliable);
        if !ok {
          StopsAt(old(files), ps, i, files);
          return;
        }
        WriteNext(old(files), ps, i);
        if ps[i].callers == [] { want := want - {ps[i].username}; }
      }
      assert ps[..|ps|] == ps;
    }

    /** The directory sweep: delete every entry that is not wanted. */
    method Sweep(want: set<string>, reliable: bool) returns (ok: bool)
      modifies this
      ensures ok ==> files == Keep(old(files), want)
      ensures exists rest: set<string> :: files == Keep(old(files), want + rest)
      ensures reliable ==> ok
    {
      ok := IoStep(reliable);
      var entries := files.Keys;
      assert files == Keep(files, want + entries);
      if !ok { return; }
      while entries != {}
        invariant entries <= old(files).Keys
        invariant files == Keep(old(files), want + entries)
        decreases entries
      {
        var name :| name in entries;
        if name !in want {
          ok := IoStep(reliable);
          if !ok { return; }
          files := files - {name};
        }
        KeepFewer(old(files), want, entries, name);
        entries := entries - {name};
      }
      ok := true;
    }

    /** renderPrincipalsDir. */
    method RenderPrincipalsDir(ps: seq<Principal>, reliable: bool) returns (ok: bool)
      modifies this
      ensures ok ==> ValidPrincipals(ps) && files == RenderResult(old(files), ps)
      ensures reliable && ValidPrincipals(ps) ==> ok
      ensures !ValidPrincipals(ps) ==> files == old(files)
      ensures Stop(old(files), ps, files)
    {
      ok := IoStep(reliable);
      if !ok || !ValidPrincipals(ps) {
        assert WriteAll(files, ps[..0]) == files && WritingAt(files, ps, 0, files);
        return false;
      }
      var want: set<string>;
      ok, want := WriteUsers(ps, reliable);
      if !ok { return; }
      ok := Sweep(want, reliable);
    }
  }

  lemma StopsAt(files: Files, ps: seq<Principal>, i: nat, mid: Files)
    requires i < |ps| && Interrupted(WriteAll(files, ps[..i]), ps[i], mid)
    ensures StopsWriting(files, ps, mid)
  {
    assert WritingAt(files, ps, i, mid);
  }

  /** One more user written, and one more name given up if it has no callers. */
  lemma WriteNext(files: Files, ps: seq<Principal>, i: nat)
    requires i < |ps|
    ensures WriteAll(files, ps[..i + 1]) == WriteOne(WriteAll(files, ps[..i]), ps[i])
    ensures Emptied(ps[..i + 1]) == Emptied(ps[..i]) + (if ps[i].callers == [] then {ps[i].username} else {})
  {
    assert ps[..i + 1][..i] == ps[..i] && ps[..i + 1] == ps[..i] + [ps[i]];
  }

  lemma KeepFewer(files: Files, want: set<string>, entries: set<string>, name: string)
    requires name in entries
    ensures var kept := Keep(files, want + entries);
            Keep(files, want + (entries - {name})) == if name in want then kept else kept - {name}
  {
  }

  // ---------- when the rewrite is exact ----------

  predicate DistinctNames(ps: seq<Principal>) {
    forall i, j :: 0 <= i < j < |ps| ==> ps[i].username != ps[j].username
  }

  /** A later user's temporary name is an earlier user's file. */
  ghost predicate Clobbers(ps: seq<Principal>) {
    exists i, j :: 0 <= i < j < |ps| && ClobberedBy(ps, i, j)
  }

  ghost predicate ClobberedBy(ps: seq<Principal>, i: int, j: int)
    requires 0 <= i < |ps| && 0 <= j < |ps|
  {
    ps[i].callers != [] && ps[j].callers != [] && ps[i].username == TmpName(ps[j].username)
  }

  /** The fate of one written file under the writes that follow it. */
  lemma {:induction false} WrittenFile(files: Files, ps: seq<Principal>, i: nat)
    requires DistinctNames(ps) && i < |ps| && ps[i].callers != []
    ensures var out, n := WriteAll(files, ps), ps[i].username;
            if exists j :: i < j < |ps| && ClobberedBy(ps, i, j)
            then n !in out
            else n in out && out[n] == Terminated(ps[i].callers)
  {
    var init, p := ps[..|ps| - 1], ps[|ps| - 1];
    if i < |init| {
      WrittenFile(files, init, i);
      assert forall j :: i < j < |init| ==> (ClobberedBy(init, i, j) <==> ClobberedBy(ps, i, j));
      assert p.username != ps[i].username;
      if ClobberedBy(ps, i, |ps| - 1) {
      } else {
        assert (exists j :: i < j < |ps| && ClobberedBy(ps, i, j))
          <==> exists j :: i < j < |init| && ClobberedBy(init, i, j);
      }
    }
  }

  lemma WantedDistinct(ps: seq<Principal>, n: string)
    requires DistinctNames(ps)
    ensures n in Wanted(ps) <==> exists p :: p in ps && p.username == n && p.callers != []
  {
  }

  /** A successful rewrite leaves exactly the directory the policy describes, whatever was there
      before, if and only if no user's temporary name is an earlier user's file. */
  lemma RenderExact(files: Files, ps: seq<Principal>)
    requires DistinctNames(ps)
    ensures Describes(RenderResult(files, ps), ps) <==> !Clobbers(ps)
  {
    var out := RenderResult(files, ps);
    if Clobbers(ps) {
      var i, j :| 0 <= i < j < |ps| && ClobberedBy(ps, i, j);
      WrittenFile(files, ps, i);
      assert ps[i] in ps && ps[i].username !in out;
    } else {
      forall p | p in ps && p.callers != []
        ensures p.username in out && out[p.username] == Terminated(p.callers)
      {
        var i :| 0 <= i < |ps| && ps[i] == p;
        WrittenFile(files, ps, i);
        WantedDistinct(ps, p.username);
      }
      forall n ensures n in out <==> exists p :: p in ps && p.username == n && p.callers != [] {
        WantedDistinct(ps, n);
      }
    }
  }

  /** Ascending usernames, as the store produces them, are distinct and never clobber. */
  lemma AscendingIsSafe(ps: seq<Principal>)
    requires Ascending(ps)
    ensures DistinctNames(ps) && !Clobbers(ps)
  {
    forall i, j | 0 <= i < j < |ps| ensures !ClobberedBy(ps, i, j) {
      if ClobberedBy(ps, i, j) {
        StrLtExtension(ps[j].username, ".tmp");
        StrLeAntisym(ps[i].username, ps[j].username);
      }
    }
  }

  lemma RenderExactAscending(files: Files, ps: seq<Principal>)
    requires Ascending(ps)
    ensures Describes(RenderResult(files, ps), ps)
  {
    AscendingIsSafe(ps);
    RenderExact(files, ps);
  }

  /** In the other order the second user's temporary file destroys the first user's file. */
  lemma DescendingLosesAFile(files: Files)
    ensures var ps := [Principal("a.tmp", ["c1"]), Principal("a", ["c2"])];
            ValidPrincipals(ps) && DistinctNames(ps) && !Describes(RenderResult(files, ps), ps)
  {
    var ps := [Principal("a.tmp", ["c1"]), Principal("a", ["c2"])];
    assert TmpName(ps[1].username) == ps[0].username;
    assert ClobberedBy(ps, 0, 1) && Clobbers(ps);
    assert |ps[0].username| != |ps[1].username| && DistinctNames(ps);
    assert ValidUsername(ps[0].username) && ValidUsername(ps[1].username);
    assert ValidCaller(ps[0].callers[0]) && ValidCaller(ps[1].callers[0]);
    RenderExact(files, ps);
  }

  /** A policy describes only one directory. */
  lemma DescribesUnique(a: Files, b: Files, ps: seq<Principal>)
    requires Describes(a, ps) && Describes(b, ps)
    ensures a == b
  {
    assert a.Keys == b.Keys by {
      forall n ensures n in a <==> n in b { }
    }
    forall n | n in a ensures a[n] == b[n] {
      var p :| p in ps && p.username == n && p.callers != [];
    }
  }

  // ---------- what a stop can show ----------

  function At(files: Files, n: string): Option<string> { if n in files then Some(files[n]) else None }

  /** What the policy wants under the name: a user's lines, or no file. */
  ghost function Target(ps: seq<Principal>, n: string): Option<string> {
    if exists i :: 0 <= i < |ps| && ps[i].username == n && ps[i].callers != [] then
      var i :| 0 <= i < |ps| && ps[i].username == n && ps[i].callers != [];
      Some(Terminated(ps[i].callers))
    else None
  }

  /** The name is the temporary name of a user whose file is written. */
  predicate IsTemporary(ps: seq<Principal>, n: string) {
    exists i :: 0 <= i < |ps| && ps[i].callers != [] && TmpName(ps[i].username) == n
  }

  ghost predicate OldOrNew(files: Files, ps: seq<Principal>, n: string, mid: Files) {
    At(mid, n) == At(files, n) || At(mid, n) == Target(ps, n)
  }

  lemma TargetOf(ps: seq<Principal>, i: nat)
    requires DistinctNames(ps) && i < |ps|
    ensures Target(ps, ps[i].username) == if ps[i].callers == [] then None else Some(Terminated(ps[i].callers))
  {
  }

  lemma WriteOneAt(files: Files, p: Principal, n: string)
    requires p.callers != [] ==> TmpName(p.username) != n
    ensures p.username != n ==> At(WriteOne(files, p), n) == At(files, n)
    ensures p.username == n ==>
      At(WriteOne(files, p), n) == if p.callers == [] then None else Some(Terminated(p.callers))
  {
  }

  predicate ListedBefore(ps: seq<Principal>, i: nat, n: string)
    requires i <= |ps|
  {
    exists k :: 0 <= k < i && ps[k].username == n
  }

  /** A name that is nobody's temporary name: untouched up to its user, the target from there on. */
  lemma {:induction false} WritesSettle(files: Files, ps: seq<Principal>, n: string, i: nat)
    requires DistinctNames(ps) && !IsTemporary(ps, n) && i <= |ps|
    ensures At(WriteAll(files, ps[..i]), n) == if ListedBefore(ps, i, n) then Target(ps, n) else At(files, n)
    decreases i
  {
    if i > 0 {
      WritesSettle(files, ps, n, i - 1);
      WriteNext(files, ps, i - 1);
      assert ps[i - 1].callers != [] ==> TmpName(ps[i - 1].username) != n;
      WriteOneAt(WriteAll(files, ps[..i - 1]), ps[i - 1], n);
      TargetOf(ps, i - 1);
    }
  }

  lemma WritingStopClean(files: Files, ps: seq<Principal>, n: string, i: nat, mid: Files)
    requires DistinctNames(ps) && !IsTemporary(ps, n) && i <= |ps| && WritingAt(files, ps, i, mid)
    ensures OldOrNew(files, ps, n, mid)
  {
    WritesSettle(files, ps, n, i);
    assert i < |ps| && ps[i].callers != [] ==> TmpName(ps[i].username) != n;
    assert At(mid, n) == At(WriteAll(files, ps[..i]), n);
  }

  lemma SweepingStopClean(files: Files, ps: seq<Principal>, n: string, mid: Files)
    requires DistinctNames(ps) && !IsTemporary(ps, n) && StopsSweeping(files, ps, mid)
    ensures OldOrNew(files, ps, n, mid)
  {
    WritesSettle(files, ps, n, |ps|);
    assert ps[..|ps|] == ps;
    WantedDistinct(ps, n);
    if n in Wanted(ps) {
      var p :| p in ps && p.username == n && p.callers != [];
      var k :| 0 <= k < |ps| && ps[k] == p;
      TargetOf(ps, k);
    }
  }

  /** The contents a temporary file shows on the way, and the cleanup that takes it away. */
  lemma HalfDoneShows(files: Files, ps: seq<Principal>, i: nat, k: nat) returns (mid: Files, gone: Files)
    requires i < |ps| && k <= |ps[i].callers| && ps[i].callers != []
    ensures Stop(files, ps, mid) && At(mid, TmpName(ps[i].username)) == Some(Terminated(ps[i].callers[..k]))
    ensures Stop(files, ps, gone) && At(gone, TmpName(ps[i].username)) == None
  {
    var base, tmp := WriteAll(files, ps[..i]), TmpName(ps[i].username);
    mid, gone := base[tmp := Terminated(ps[i].callers[..k])], base - {tmp};
    assert WritingAt(files, ps, i, mid) && WritingAt(files, ps, i, gone);
  }

  /** At every stop the file under a name is the old one or what the policy wants, if and only if the
      name is not the temporary name of a user being written. */
  lemma StopsCleanIff(files: Files, ps: seq<Principal>, n: string)
    requires DistinctNames(ps)
    ensures (forall mid :: Stop(files, ps, mid) ==> OldOrNew(files, ps, n, mid)) <==> !IsTemporary(ps, n)
  {
    if IsTemporary(ps, n) {
      var i :| 0 <= i < |ps| && ps[i].callers != [] && TmpName(ps[i].username) == n;
      var none, gone := HalfDoneShows(files, ps, i, 0);
      var one, _ := HalfDoneShows(files, ps, i, 1);
      ThreeContents(ps[i].callers);
      assert At(none, n) != At(one, n) && At(none, n) != At(gone, n) && At(one, n) != At(gone, n);
      assert !OldOrNew(files, ps, n, none) || !OldOrNew(files, ps, n, one) || !OldOrNew(files, ps, n, gone);
    } else {
      forall mid | Stop(files, ps, mid) ensures OldOrNew(files, ps, n, mid) {
        if StopsSweeping(files, ps, mid) {
          SweepingStopClean(files, ps, n, mid);
        } else {
          var i :| 0 <= i <= |ps| && WritingAt(files, ps, i, mid);
          WritingStopClean(files, ps, n, i, mid);
        }
      }
    }
  }

  lemma ThreeContents(callers: seq<string>)
    requires callers != []
    ensures Terminated(callers[..0]) != Terminated(callers[..1])
  {
    assert callers[..0] == [] && callers[..1] == [callers[0]];
    assert [callers[0]][..0] == [];
    assert |Terminated([callers[0]])| > 0;
  }
}
