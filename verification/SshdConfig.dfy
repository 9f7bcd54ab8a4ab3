/** internal/gatekeeper/sshdconfig.go: the markers, the tokens of an sshd_config line, and what the
    installer, the uninstaller and the health check do to a whole file. */
module SshdConfig {
  import opened Text
  import opened ManagedBlock

  const BEGIN_TAIL: string := " >>> uncluster (managed) " + "\U{2014} do not edit this " + "block >>>"
  const END_TAIL: string := " <<< uncluster (managed) <<<"
  const BEGIN: string := "#" + BEGIN_TAIL
  const END: string := "#" + END_TAIL
  const LEGACY_MARKER: string := "# Added by uncluster agent install"

  // ---------- tokens ----------

  /** Simple Unicode folding, exact for comparisons with an ASCII word. */
  function FoldChar(c: char): char {
    if 'A' <= c <= 'Z' then (c as int + 32) as char
    else if c == '\U{017F}' then 's'
    else if c == '\U{212A}' then 'k'
    else c
  }

  /** strings.EqualFold(s, word) for an ASCII word. */
  predicate EqualFold(s: string, word: string) {
    |s| == |word| && forall i :: 0 <= i < |s| ==> FoldChar(s[i]) == FoldChar(word[i])
  }

  function TrimLeft(s: string): string {
    if s != "" && IsSpace(s[0]) then TrimLeft(s[1..]) else s
  }

  function TrimRight(s: string): string {
    if s != "" && IsSpace(s[|s| - 1]) then TrimRight(s[..|s| - 1]) else s
  }

  /** strings.TrimSpace. */
  function TrimSpace(s: string): string { TrimRight(TrimLeft(s)) }

  function WordLength(s: string): (n: nat)
    ensures n <= |s| && (s != "" && !IsSpace(s[0]) ==> n > 0)
  {
    if s == "" || IsSpace(s[0]) then 0 else 1 + WordLength(s[1..])
  }

  /** strings.Fields. */
  function Fields(s: string): seq<string>
    decreases |s|
  {
    TrimLeftShrinks(s);
    var t := TrimLeft(s);
    if t == "" then [] else
      var n := WordLength(t);
      [t[..n]] + Fields(t[n..])
  }

  lemma TrimLeftShrinks(s: string)
    ensures |TrimLeft(s)| <= |s| && (TrimLeft(s) != "" ==> !IsSpace(TrimLeft(s)[0]))
  {
  }

  /** A line whose first token is `Match`, in any case. */
  predicate IsMatchLine(line: string) {
    var f := Fields(TrimSpace(line));
    |f| > 0 && EqualFold(f[0], "Match")
  }

  /** line[a..b] is the first token of the line. */
  predicate FirstToken(line: string, a: int, b: int) {
    && 0 <= a < b <= |line|
    && (forall i :: 0 <= i < a ==> IsSpace(line[i]))
    && (forall i :: a <= i < b ==> !IsSpace(line[i]))
    && (b < |line| ==> IsSpace(line[b]))
  }

  lemma FirstTokenUnique(line: string, x: int, y: int, a: int, b: int)
    requires FirstToken(line, x, y) && FirstToken(line, a, b)
    ensures x == a && y == b
  {
    assert !IsSpace(line[x]) && !IsSpace(line[a]);
    assert (y < |line| ==> IsSpace(line[y])) && (b < |line| ==> IsSpace(line[b]));
  }

  /** The first token of a line, or none when it is blank. */
  lemma {:induction false} TokenOfTrimmed(line: string) returns (a: nat, b: nat)
    ensures a <= b <= |line| && TrimLeft(line) == line[a..] && b - a == WordLength(line[a..])
    ensures TrimLeft(line) != "" ==> FirstToken(line, a, b)
    ensures TrimLeft(line) == "" ==> forall i :: 0 <= i < |line| ==> IsSpace(line[i])
  {
    if line != "" && IsSpace(line[0]) {
      var rest := line[1..];
      a, b := TokenOfTrimmed(rest);
      assert rest[a..] == line[a + 1..];
      assert forall i :: 0 <= i < |rest| ==> rest[i] == line[i + 1];
      a, b := a + 1, b + 1;
    } else {
      a, b := 0, WordLength(line);
      assert line[0..] == line;
      WordLengthSpec(line);
    }
  }

  lemma {:induction false} WordLengthSpec(s: string)
    ensures forall i :: 0 <= i < WordLength(s) ==> !IsSpace(s[i])
    ensures WordLength(s) < |s| ==> IsSpace(s[WordLength(s)])
  {
    if s != "" && !IsSpace(s[0]) { WordLengthSpec(s[1..]); }
  }

  lemma {:induction false} WordLengthOfPrefix(s: string, k: nat)
    requires WordLength(s) <= k <= |s|
    ensures WordLength(s[..k]) == WordLength(s)
  {
    if s != "" && !IsSpace(s[0]) {
      assert s[..k][1..] == s[1..][..k - 1];
      WordLengthOfPrefix(s[1..], k - 1);
    }
  }

  /** Trimming on the right keeps the first word. */
  lemma {:induction false} TrimRightKeepsWord(t: string)
    ensures var u := TrimRight(t); |u| <= |t| && u == t[..|u|] && WordLength(u) == WordLength(t)
  {
    if t != "" && IsSpace(t[|t| - 1]) {
      WordLengthSpec(t);
      WordLengthOfPrefix(t, |t| - 1);
      TrimRightKeepsWord(t[..|t| - 1]);
    }
  }

  /** The first field of a trimmed line is its first word. */
  lemma FirstField(t: string)
    requires t != "" && !IsSpace(t[0])
    ensures var f := Fields(TrimRight(t)); |f| > 0 && f[0] == t[..WordLength(t)]
  {
    TrimRightKeepsWord(t);
    TrimRightKeepsFirst(t);
    var u := TrimRight(t);
    assert TrimLeft(u) == u;
    assert Fields(u)[0] == u[..WordLength(u)];
  }

  /** A Match line is one whose first token, in any case, is `Match`. */
  lemma MatchLineIff(line: string)
    ensures IsMatchLine(line) <==> exists a, b :: FirstToken(line, a, b) && EqualFold(line[a..b], "Match")
  {
    var a, b := TokenOfTrimmed(line);
    var t := TrimLeft(line);
    TrimLeftShrinks(line);
    if t == "" {
      assert TrimSpace(line) == "" && Fields("") == [];
      forall x, y | 0 <= x < y <= |line| ensures !FirstToken(line, x, y) { assert IsSpace(line[x]); }
    } else {
      FirstField(t);
      assert t[..b - a] == line[a..b];
      forall x, y | FirstToken(line, x, y) ensures x == a && y == b { FirstTokenUnique(line, x, y, a, b); }
    }
  }

  /** Lines that start with a visible character other than m or M are not Match lines. */
  lemma NotMatchLine(line: string)
    requires line != "" && !IsSpace(line[0]) && FoldChar(line[0]) != 'm'
    ensures !IsMatchLine(line)
  {
    TrimRightKeepsFirst(line);
    var t := TrimSpace(line);
    assert TrimLeft(line) == line && TrimLeft(t) == t;
    var n := WordLength(t);
    assert Fields(t)[0] == t[..n] && t[..n][0] == line[0];
  }

  lemma {:induction false} TrimRightKeepsFirst(s: string)
    requires s != "" && !IsSpace(s[0])
    ensures TrimRight(s) != "" && TrimRight(s)[0] == s[0]
  {
    if IsSpace(s[|s| - 1]) { TrimRightKeepsFirst(s[..|s| - 1]); }
  }

  /** The terminator of a line does not change whether it is a Match line. */
  lemma MatchIgnoresNewline(line: string)
    ensures IsMatchLine(line + "\n") == IsMatchLine(line)
  {
    TrimNewline(line);
  }

  lemma {:induction false} TrimNewline(s: string)
    ensures TrimSpace(s + "\n") == TrimSpace(s)
  {
    var t := s + "\n";
    if s == "" {
      assert t[1..] == "";
    } else if IsSpace(s[0]) {
      assert t[1..] == s[1..] + "\n";
      TrimNewline(s[1..]);
    } else {
      assert t[..|t| - 1] == s;
    }
  }


  function ToSlash(s: string): string { seq(|s|, i requires 0 <= i < |s| => if s[i] == '\\' then '/' else s[i]) }

  /** strings.ToLower, exact for a search for an ASCII word. */
  function LowerChar(c: char): char {
    if 'A' <= c <= 'Z' then (c as int + 32) as char
    else if c == '\U{0130}' then 'i'
    else if c == '\U{212A}' then 'k'
    else c
  }

  function ToLower(s: string): string { seq(|s|, i requires 0 <= i < |s| => LowerChar(s[i])) }

  /** A drop-in Include line, or the comment an earlier installer put next to it. */
  predicate IsLegacyLine(line: string) {
    var t := TrimSpace(line);
    EqualFold(t, LEGACY_MARKER) ||
    (var f := Fields(t);
     |f| >= 2 && EqualFold(f[0], "Include") && Index(ToLower(ToSlash(t)), "sshd_config.d").Some?)
  }

  function Sshd(): Syntax {
    Syntax(BEGIN, END, (l: string) => IsMatchLine(l), (l: string) => IsLegacyLine(l))
  }

  // ---------- the markers are good markers ----------

  lemma MarkerTails()
    ensures '#' !in BEGIN_TAIL && NoNewline(BEGIN_TAIL) && '#' !in END_TAIL && NoNewline(END_TAIL)
    ensures |BEGIN_TAIL| > |END_TAIL| > 1 && BEGIN_TAIL[1] != END_TAIL[1]
  {
    assert '#' !in " >>> uncluster (managed) " && '\n' !in " >>> uncluster (managed) ";
    assert '#' !in "\U{2014} do not edit this " && '\n' !in "\U{2014} do not edit this ";
    assert '#' !in "block >>>" && '\n' !in "block >>>";
  }

  lemma MarkersDisjoint()
    ensures !Occurs(BEGIN, END) && !Occurs(END, BEGIN)
  {
    MarkerTails();
    forall k: nat ensures !At(BEGIN, END, k) {
      if k + |END| <= |BEGIN| {
        if k == 0 {
          assert BEGIN[0 + 2] == BEGIN_TAIL[1] && END[2] == END_TAIL[1];
        } else {
          assert BEGIN[k + 0] == BEGIN_TAIL[k - 1] && END[0] == '#';
        }
      }
    }
  }

  lemma BlankLine()
    ensures !IsMatchLine("") && !IsLegacyLine("")
  {
    assert TrimSpace("") == "" && Fields("") == [];
  }

  lemma SshdIsGood()
    ensures GoodSyntax(Sshd())
  {
    MarkerTails();
    MarkersDisjoint();
    NotMatchLine(BEGIN);
    NotMatchLine(END);
    BlankLine();
  }

  lemma SshdBlindToTerminator()
    ensures forall l :: BlindToTerminator(Sshd(), l)
  {
    forall l ensures BlindToTerminator(Sshd(), l) {
      MatchIgnoresNewline(l);
    }
  }

  // ---------- the directives ----------

  /** What a configured path must not contain for the block to stay readable. */
  predicate PathOk(p: string) { NoNewline(p) && !Occurs(p, BEGIN) && !Occurs(p, END) }

  function CaLine(ca: string): string { "TrustedUserCAKeys " + ca }
  function PrincipalsLine(p: string): string { "AuthorizedPrincipalsFile " + p }

  /** managedDirectiveBlock. */
  function ManagedDirectiveBlock(ca: string, principals: string): string {
    BEGIN + "\n" + (CaLine(ca) + "\n" + PrincipalsLine(principals) + "\n") + END + "\n"
  }

  function DirectiveLines(ca: string, principals: string): seq<string> { [CaLine(ca), PrincipalsLine(principals)] }

  /** A marker starts with '#', so it cannot begin inside a word that has none. */
  lemma NotInDirective(word: string, p: string, marker: string)
    requires marker != "" && marker[0] == '#' && '#' !in word && !Occurs(p, marker)
    ensures !Occurs(word + p, marker)
  {
    var s := word + p;
    forall k: nat ensures !At(s, marker, k) {
      if k < |word| {
        if k + |marker| <= |s| { assert s[k + 0] == word[k]; }
      } else {
        AtSuffix(word, p, marker, k - |word|);
      }
    }
  }

  lemma DirectiveWords()
    ensures '#' !in "TrustedUserCAKeys " && NoNewline("TrustedUserCAKeys ")
    ensures '#' !in "AuthorizedPrincipalsFile " && NoNewline("AuthorizedPrincipalsFile ")
  {
  }

  lemma GoodDirective(word: string, p: string)
    requires PathOk(p) && '#' !in word && NoNewline(word)
    requires word != "" && !IsSpace(word[0]) && FoldChar(word[0]) != 'm'
    ensures Directive(Sshd(), word + p)
  {
    NotInDirective(word, p, BEGIN);
    NotInDirective(word, p, END);
    NotMatchLine(word + p);
  }

  lemma GoodDirectives(ca: string, principals: string)
    requires PathOk(ca) && PathOk(principals)
    ensures Directives(Sshd(), DirectiveLines(ca, principals))
  {
    DirectiveWords();
    GoodDirective("TrustedUserCAKeys ", ca);
    GoodDirective("AuthorizedPrincipalsFile ", principals);
  }

  lemma BlockIsBlock(ca: string, principals: string)
    ensures ManagedDirectiveBlock(ca, principals) == Block(Sshd(), DirectiveLines(ca, principals))
  {
    BlockText(BEGIN, CaLine(ca), PrincipalsLine(principals), END);
  }

  lemma BlockText(a: string, b: string, c: string, d: string)
    ensures a + "\n" + (b + "\n" + c + "\n") + d + "\n" == Terminated([a] + [b, c] + [d])
  {
    TerminatedConcat([a] + [b, c], [d]);
    TerminatedConcat([a], [b, c]);
    TerminatedConcat([b], [c]);
    assert [b] + [c] == [b, c];
    TerminatedOne(a);
    TerminatedOne(b);
    TerminatedOne(c);
    TerminatedOne(d);
    Assoc(b + "\n", c, "\n");
    Assoc(a + "\n" + (b + "\n" + c + "\n"), d, "\n");
  }

  // ---------- what installing, re-installing and removing do ----------

  /** Whatever the file held, after an install the health check finds the block in force. */
  lemma InstallIsEffective(content: string, ca: string, principals: string)
    requires PathOk(ca) && PathOk(principals)
    ensures BlockBeforeMatch(Sshd(), Upsert(Sshd(), content, ManagedDirectiveBlock(ca, principals)))
  {
    SshdIsGood();
    GoodDirectives(ca, principals);
    BlockIsBlock(ca, principals);
    InsertIsEffective(Sshd(), Strip(Sshd(), Remove(Sshd(), content)), DirectiveLines(ca, principals));
  }

  /** Re-installing changes nothing when no opening marker is left before the insertion point; and the
      opening marker is there exactly once when one removal clears the file of opening markers. */
  lemma ReinstallIsIdempotent(content: string, ca: string, principals: string)
    requires PathOk(ca) && PathOk(principals) && !Occurs(Head(Sshd(), Cleaned(Sshd(), content)), BEGIN)
    ensures var block := ManagedDirectiveBlock(ca, principals);
            var u := Upsert(Sshd(), content, block);
            && Upsert(Sshd(), u, block) == u
            && (!Occurs(Remove(Sshd(), content), BEGIN) ==> exists b :: OccursOnlyAt(u, BEGIN, b))
  {
    SshdIsGood();
    GoodDirectives(ca, principals);
    BlockIsBlock(ca, principals);
    UpsertIdempotent(Sshd(), content, DirectiveLines(ca, principals));
    if !Occurs(Remove(Sshd(), content), BEGIN) {
      OneRemovalClearsHead(Sshd(), content);
      InsertMarksOnce(Sshd(), Cleaned(Sshd(), content), DirectiveLines(ca, principals));
    }
  }

  /** With an older block left on lines of its own before the insertion point, and no marker after it,
      re-installing changes nothing if and only if that block is the new one and ends right there. */
  lemma ReinstallOverLeftoverIff(content: string, pre: seq<string>, prior: seq<string>, post: seq<string>, b: string,
                                 ca: string, principals: string)
    requires PathOk(ca) && PathOk(principals)
    requires Seam(Sshd(), Cleaned(Sshd(), content), pre + BlockLines(Sshd(), prior) + post, b)
    requires !Occurs(Terminated(pre), BEGIN) && (forall d :: d in prior ==> !Occurs(d, END)) && BEGIN !in post
    ensures var block := ManagedDirectiveBlock(ca, principals);
            var u := Upsert(Sshd(), content, block);
            Upsert(Sshd(), u, block) == u <==> post == [] && prior == DirectiveLines(ca, principals)
  {
    SshdIsGood();
    BlockIsBlock(ca, principals);
    PlainDirectives(ca, principals);
    LeftoverStableIff(Sshd(), content, pre, prior, post, b, DirectiveLines(ca, principals));
    LastLeftoverStableIff(Sshd(), prior, post, DirectiveLines(ca, principals));
  }

  /** Removing gives back the text the block was inserted into, its last line terminated if the
      block was appended after it. */
  lemma RemoveRestores(content: string, ca: string, principals: string)
    requires PathOk(ca) && PathOk(principals) && !Occurs(content, BEGIN)
    ensures var back := Remove(Sshd(), InsertBlock(Sshd(), content, ManagedDirectiveBlock(ca, principals)));
            back == Closed(Sshd(), content)
  {
    SshdIsGood();
    GoodDirectives(ca, principals);
    BlockIsBlock(ca, principals);
    RemoveUndoesInsert(Sshd(), content, DirectiveLines(ca, principals));
  }

  /** An install over a line-aligned block keeps every line outside it that is not legacy, in order. */
  lemma InstallKeepsOtherLines(pre: seq<string>, prior: seq<string>, post: string, ca: string, principals: string)
    requires PathOk(ca) && PathOk(principals)
    requires AllNoNewline(pre) && !Occurs(Terminated(pre), BEGIN)
    requires forall d :: d in prior ==> !Occurs(d, END)
    ensures var content := Terminated(pre) + Block(Sshd(), prior) + post;
            var u := Upsert(Sshd(), content, ManagedDirectiveBlock(ca, principals));
            InsertedSomewhere(KeptOrBlank(Sshd(), pre + Split(post)),
                              BlockLines(Sshd(), DirectiveLines(ca, principals)), Split(u))
  {
    SshdIsGood();
    GoodDirectives(ca, principals);
    BlockIsBlock(ca, principals);
    UpsertKeepsLines(Sshd(), pre, prior, post, DirectiveLines(ca, principals));
  }

  // ---------- the limit of idempotence ----------

  lemma NotLegacyLine(line: string)
    requires line != "" && !IsSpace(line[0]) && FoldChar(line[0]) != 'i'
    requires FoldChar(line[0]) != '#' || (!IsSpace(line[|line| - 1]) && |line| != |LEGACY_MARKER|)
    ensures !IsLegacyLine(line)
  {
    var t := TrimSpace(line);
    TrimRightKeepsFirst(line);
    assert TrimLeft(line) == line && TrimLeft(t) == t;
    var n := WordLength(t);
    assert Fields(t)[0] == t[..n] && t[..n][0] == line[0];
  }

  lemma PlainDirectives(ca: string, principals: string)
    requires PathOk(ca) && PathOk(principals)
    ensures PlainLines(Sshd(), BlockLines(Sshd(), DirectiveLines(ca, principals)))
  {
    SshdIsGood();
    GoodDirectives(ca, principals);
    MarkersNotLegacy();
    DirectivesNotLegacy(ca, principals);
    PlainBlock(Sshd(), DirectiveLines(ca, principals));
  }

  lemma DirectivesNotLegacy(ca: string, principals: string)
    ensures !IsLegacyLine(CaLine(ca)) && !IsLegacyLine(PrincipalsLine(principals))
  {
    NotLegacyLine(CaLine(ca));
    NotLegacyLine(PrincipalsLine(principals));
  }

  lemma MarkersNotLegacy()
    ensures !IsLegacyLine(BEGIN) && !IsLegacyLine(END)
  {
    assert |BEGIN| != |LEGACY_MARKER| && |END| != |LEGACY_MARKER|;
    assert BEGIN[|BEGIN| - 1] == '>' && END[|END| - 1] == '<';
    NotLegacyLine(BEGIN);
    NotLegacyLine(END);
  }

  /** A file holding two copies of an older block is changed by the second install as well. */
  lemma TwoOldBlocksAreNotStable(ca: string, principals: string, ca': string)
    requires PathOk(ca) && PathOk(principals) && PathOk(ca') && |ca| != |ca'|
    ensures var prior, block := ManagedDirectiveBlock(ca, principals), ManagedDirectiveBlock(ca', principals);
            var u := Upsert(Sshd(), prior + prior, block);
            Upsert(Sshd(), u, block) != u
  {
    SshdIsGood();
    GoodDirectives(ca, principals);
    GoodDirectives(ca', principals);
    PlainDirectives(ca, principals);
    PlainDirectives(ca', principals);
    BlockIsBlock(ca, principals);
    BlockIsBlock(ca', principals);
    TwoOldBlocksChangeTwice(Sshd(), DirectiveLines(ca, principals), DirectiveLines(ca', principals));
  }
}
