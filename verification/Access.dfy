/** internal/cli/agent_cmd.go, principalsFileContent, and the path from an ACL row to what sshd reads. */
module Access {
  import opened Text
  import opened PolicyHash
  import opened Policy
  import opened PolicyStore
  import opened PrincipalsDir

  /** filepath.Base on Unix. */
  function Base(path: string): string {
    if path == "" then "."
    else
      var t := TrimSlashes(path);
      if t == "" then "/" else AfterLastSlash(t)
  }

  function TrimSlashes(s: string): string {
    if s != "" && s[|s| - 1] == '/' then TrimSlashes(s[..|s| - 1]) else s
  }

  function AfterLastSlash(s: string): (r: string)
    ensures '/' !in r
  {
    if s == "" || s[|s| - 1] == '/' then "" else AfterLastSlash(s[..|s| - 1]) + [s[|s| - 1]]
  }

  /** What `agent principals <user>` prints, or None when it prints nothing.
      Joining "/" to the directory names the directory itself, which cannot be read as a file. */
  function PrincipalsFileContent(files: Files, username: string): Option<string> {
    var base := Base(username);
    if base != username || base == "." || base == ".." then None
    else if base == "/" then None
    else if base in files then Some(files[base])
    else None
  }

  lemma {:induction false} AfterLastSlashPlain(s: string)
    requires '/' !in s
    ensures AfterLastSlash(s) == s
  {
    if s != "" {
      assert s == s[..|s| - 1] + [s[|s| - 1]];
      AfterLastSlashPlain(s[..|s| - 1]);
    }
  }

  /** A username with a separator in it never reads a file; one without reads only its own. */
  lemma OnlyOwnFile(files: Files, username: string)
    ensures '/' in username || username == "" || username == "." || username == ".." ==>
      PrincipalsFileContent(files, username).None?
    ensures ValidUsername(username) ==>
      PrincipalsFileContent(files, username) == if username in files then Some(files[username]) else None
  {
    if '/' in username {
      var t := TrimSlashes(username);
      if t != "" { assert '/' !in AfterLastSlash(t); }
    }
    if ValidUsername(username) {
      assert '/' !in username;
      AfterLastSlashPlain(username);
    }
  }

  /** The principals sshd obtains for a user. */
  function PrincipalsOf(files: Files, username: string): seq<string> {
    match PrincipalsFileContent(files, username)
    case None => []
    case Some(content) => TerminatedLines(content)
  }

  lemma ValidCallerIsLine(callers: seq<string>)
    requires forall c :: c in callers ==> ValidCaller(c)
    ensures AllNoNewline(callers)
  {
    forall c | c in callers ensures NoNewline(c) {
      assert ValidCaller(c);
      assert forall i :: 0 <= i < |c| ==> CallerChar(c[i]) && c[i] != '\n';
    }
  }

  /** Reading a described directory gives back the policy, user by user. */
  lemma ReadBack(files: Files, ps: seq<Principal>, u: string, c: string)
    requires DistinctNames(ps) && ValidPrincipals(ps) && Describes(files, ps) && ValidUsername(u)
    ensures c in PrincipalsOf(files, u) <==> Grant(u, c) in Flatten(ps)
  {
    OnlyOwnFile(files, u);
    FlattenMembership(ps, Grant(u, c));
    if u in files {
      var p :| p in ps && p.username == u && p.callers != [];
      var i :| 0 <= i < |ps| && ps[i] == p;
      ValidCallerIsLine(p.callers);
      TerminatedRoundTrip(p.callers);
      assert forall j :: 0 <= j < |ps| && ps[j].username == u ==> j == i;
    } else {
      forall j | 0 <= j < |ps| && ps[j].username == u ensures ps[j].callers == [] {
        assert ps[j] in ps;
      }
    }
  }

  /** End to end: after a successful rewrite of an agent's snapshot, whatever the directory held,
      a caller is listed for a user exactly when the ACL holds that grant. */
  lemma SshdSeesExactlyTheAcl(t: Tables, agent: string, before: Files, after: Files, u: string, c: string)
    requires PolicyStore.Inv(t)
    requires ValidPrincipals(SnapshotOf(t, agent).principals)
    requires after == RenderResult(before, SnapshotOf(t, agent).principals)
    requires ValidUsername(u)
    ensures c in PrincipalsOf(after, u) <==>
            exists i :: 0 <= i < |t.acl| && SameTriple(t.acl[i], c, agent, u)
  {
    var ps := SnapshotOf(t, agent).principals;
    SnapshotIsAuthentic(t, agent);
    AscendingIsSafe(ps);
    RenderExact(before, ps);
    ReadBack(after, ps, u, c);
    GrantsOfMembership(t.acl, agent, Grant(u, c));
    assert Grant(u, c) in multiset(Flatten(ps)) <==> Grant(u, c) in multiset(GrantsOf(t.acl, agent));
  }

  function Neighbours(): seq<Principal> { [Principal("a", ["c1"]), Principal("a.tmp", ["c2"])] }

  lemma NeighboursAreFine()
    ensures ValidPrincipals(Neighbours()) && Ascending(Neighbours())
  {
    assert ValidUsername("a") && ValidUsername("a.tmp") && ValidCaller("c1") && ValidCaller("c2");
    StrLtExtension("a", ".tmp");
    assert "a" + ".tmp" == "a.tmp";
  }

  lemma NotGranted()
    ensures Grant("a.tmp", "c1") !in Flatten(Neighbours())
  {
    FlattenMembership(Neighbours(), Grant("a.tmp", "c1"));
    assert |"a"| != |"a.tmp"| && "c1"[1] != "c2"[1];
  }

  /** A login in the middle of a rewrite: user `a` is being granted c1 and user `a.tmp` is granted c2, and
      while `a.tmp` holds the lines on their way to `a`, c1 is let in as `a.tmp`. */
  lemma TemporaryNameLetsIn(files: Files)
    ensures ValidPrincipals(Neighbours()) && Ascending(Neighbours()) && Grant("a.tmp", "c1") !in Flatten(Neighbours())
    ensures exists mid :: Stop(files, Neighbours(), mid) && "c1" in PrincipalsOf(mid, "a.tmp")
  {
    NeighboursAreFine();
    NotGranted();
    var mid, _ := HalfDoneShows(files, Neighbours(), 0, 1);
    assert Neighbours()[0].callers[..1] == ["c1"] && TmpName("a") == "a.tmp";
    ReadsOneLine(mid, "a.tmp", "c1");
  }

  lemma ReadsOneLine(files: Files, u: string, c: string)
    requires ValidUsername(u) && ValidCaller(c) && u in files && files[u] == Terminated([c])
    ensures c in PrincipalsOf(files, u)
  {
    OnlyOwnFile(files, u);
    ValidCallerIsLine([c]);
    TerminatedRoundTrip([c]);
  }
}
