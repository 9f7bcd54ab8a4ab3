/** What the line predicates of internal/gatekeeper/sshdconfig.go mean, and what sshd reads from a file
    the installer has been at. */
module SshdLines {
  import opened Text
  import opened ManagedBlock
  import opened SshdConfig

  /** The same letter in either case; two more characters fold to s and k. */
  predicate CaseVariant(c: char, d: char) {
    || c == d
    || ('A' <= c <= 'Z' && d as int == c as int + 32)
    || ('A' <= d <= 'Z' && c as int == d as int + 32)
    || (c == '\U{017F}' && (d == 's' || d == 'S'))
    || (c == '\U{212A}' && (d == 'k' || d == 'K'))
  }

  /** Equality up to case, for an ASCII word. */
  lemma EqualFoldIff(s: string, word: string)
    requires forall i :: 0 <= i < |word| ==> word[i] as int < 128
    ensures EqualFold(s, word) <==> |s| == |word| && forall i :: 0 <= i < |s| ==> CaseVariant(s[i], word[i])
  {
    if |s| == |word| {
      forall i | 0 <= i < |s| ensures FoldChar(s[i]) == FoldChar(word[i]) <==> CaseVariant(s[i], word[i]) {
        FoldIff(s[i], word[i]);
      }
    }
  }

  lemma FoldIff(c: char, d: char)
    requires d as int < 128
    ensures FoldChar(c) == FoldChar(d) <==> CaseVariant(c, d)
  {
  }

  /** line[p..q] is the line without the white space around it. */
  predicate Trimmed(line: string, p: int, q: int) {
    && 0 <= p <= q <= |line|
    && (forall i :: 0 <= i < p ==> IsSpace(line[i]))
    && (forall i :: q <= i < |line| ==> IsSpace(line[i]))
    && (p < q ==> !IsSpace(line[p]) && !IsSpace(line[q - 1]))
  }

  lemma {:induction false} TrimRightSpec(s: string) returns (q: nat)
    ensures q <= |s| && TrimRight(s) == s[..q] && (q > 0 ==> !IsSpace(s[q - 1]))
    ensures forall i :: q <= i < |s| ==> IsSpace(s[i])
  {
    if s != "" && IsSpace(s[|s| - 1]) {
      q := TrimRightSpec(s[..|s| - 1]);
      assert s[..|s| - 1][..q] == s[..q];
    } else {
      q := |s|;
      assert s[..|s|] == s;
    }
  }

  lemma TrimSpaceSpec(line: string) returns (p: nat, q: nat)
    ensures p <= q <= |line| && Trimmed(line, p, q) && TrimSpace(line) == line[p..q]
  {
    var a, b := TokenOfTrimmed(line);
    var t := line[a..];
    TrimLeftShrinks(line);
    var k := TrimRightSpec(t);
    p, q := a, a + k;
    assert t[..k] == line[p..q];
    assert forall i :: a <= i < |line| ==> line[i] == t[i - a];
    if t != "" { TrimRightKeepsFirst(t); }
  }

  const DROP_IN: string := "sshd_config.d"

  /** The character reads as p once lowered; p is lower case and no separator. */
  predicate LowersTo(c: char, p: char) {
    || c == p
    || ('A' <= c <= 'Z' && p as int == c as int + 32)
    || (c == '\U{0130}' && p == 'i')
    || (c == '\U{212A}' && p == 'k')
  }

  /** The drop-in directory is named at position k. */
  predicate NamesDropInAt(line: string, k: int) {
    0 <= k && k + |DROP_IN| <= |line| && forall i :: 0 <= i < |DROP_IN| ==> LowersTo(line[k + i], DROP_IN[i])
  }

  lemma DropInChars(i: nat)
    requires i < |DROP_IN|
    ensures var p := DROP_IN[i]; p != '/' && p != '\\' && !('A' <= p <= 'Z') && !IsSpace(p) && (p as int) < 128
  {
  }

  lemma LowersIff(c: char, p: char)
    requires p != '/' && p != '\\' && !('A' <= p <= 'Z') && p as int < 128
    ensures LowerChar(if c == '\\' then '/' else c) == p <==> LowersTo(c, p)
  {
  }

  lemma NamedAtIff(t: string, k: nat)
    ensures At(ToLower(ToSlash(t)), DROP_IN, k) <==> NamesDropInAt(t, k)
  {
    var u := ToLower(ToSlash(t));
    if k + |DROP_IN| <= |t| {
      forall i | 0 <= i < |DROP_IN| ensures u[k + i] == DROP_IN[i] <==> LowersTo(t[k + i], DROP_IN[i]) {
        DropInChars(i);
        LowersIff(t[k + i], DROP_IN[i]);
      }
    }
  }

  /** White space around the line neither hides nor adds the name. */
  lemma NamedInTrimmed(line: string, p: nat, q: nat, k: int)
    requires p <= q <= |line| && Trimmed(line, p, q)
    ensures NamesDropInAt(line, k) ==> NamesDropInAt(line[p..q], k - p)
    ensures NamesDropInAt(line[p..q], k) ==> NamesDropInAt(line, k + p)
  {
    if NamesDropInAt(line, k) {
      NotSpaceThere(line, k, 0);
      NotSpaceThere(line, k, |DROP_IN| - 1);
    }
  }

  lemma NotSpaceThere(line: string, k: int, i: nat)
    requires NamesDropInAt(line, k) && i < |DROP_IN|
    ensures !IsSpace(line[k + i])
  {
    DropInChars(i);
    assert LowersTo(line[k + i], DROP_IN[i]);
  }

  ghost predicate NamesDropIn(line: string) { exists k :: NamesDropInAt(line, k) }

  lemma NamedWithin(t: string)
    ensures Occurs(ToLower(ToSlash(t)), DROP_IN) <==> NamesDropIn(t)
  {
    if Occurs(ToLower(ToSlash(t)), DROP_IN) {
      var k: nat :| At(ToLower(ToSlash(t)), DROP_IN, k);
      NamedAtIff(t, k);
    }
    if NamesDropIn(t) {
      var k :| NamesDropInAt(t, k);
      NamedAtIff(t, k);
    }
  }

  lemma NamedAround(line: string, p: nat, q: nat)
    requires p <= q <= |line| && Trimmed(line, p, q)
    ensures NamesDropIn(line[p..q]) <==> NamesDropIn(line)
  {
    if NamesDropIn(line[p..q]) {
      var k :| NamesDropInAt(line[p..q], k);
      NamedInTrimmed(line, p, q, k);
    }
    if NamesDropIn(line) {
      var k :| NamesDropInAt(line, k);
      NamedInTrimmed(line, p, q, k);
    }
  }

  lemma NamedIff(line: string, p: nat, q: nat)
    requires p <= q <= |line| && Trimmed(line, p, q)
    ensures Index(ToLower(ToSlash(line[p..q])), DROP_IN).Some? <==> NamesDropIn(line)
  {
    IndexIff(ToLower(ToSlash(line[p..q])), DROP_IN);
    NamedWithin(line[p..q]);
    NamedAround(line, p, q);
  }

  /** Something follows the first token. */
  ghost predicate MoreAfter(line: string, b: int) { exists c :: 0 <= b < c < |line| && !IsSpace(line[c]) }

  ghost predicate HasVisible(s: string) { exists c :: 0 <= c < |s| && !IsSpace(s[c]) }

  lemma FieldsNonEmptyIff(s: string)
    ensures Fields(s) != [] <==> HasVisible(s)
  {
    var a, b := TokenOfTrimmed(s);
    TrimLeftShrinks(s);
    if TrimLeft(s) != "" { assert !IsSpace(s[a]); }
  }

  lemma MoreIsVisible(t: string, n: nat)
    requires n <= |t| && (n < |t| ==> IsSpace(t[n]))
    ensures HasVisible(t[n..]) <==> MoreAfter(t, n)
  {
    var u := t[n..];
    assert forall c :: 0 <= c < |u| ==> u[c] == t[n + c];
    if HasVisible(u) {
      var c :| 0 <= c < |u| && !IsSpace(u[c]);
      assert n < n + c < |t| && !IsSpace(t[n + c]);
    }
    if MoreAfter(t, n) {
      var c :| 0 <= n < c < |t| && !IsSpace(t[c]);
      assert !IsSpace(u[c - n]);
    }
  }

  lemma FieldsSplit(t: string)
    requires t != "" && !IsSpace(t[0])
    ensures Fields(t) == [t[..WordLength(t)]] + Fields(t[WordLength(t)..])
  {
    assert TrimLeft(t) == t;
  }

  lemma SecondFieldIff(t: string)
    requires t != "" && !IsSpace(t[0])
    ensures |Fields(t)| >= 2 <==> MoreAfter(t, WordLength(t))
  {
    WordLengthSpec(t);
    FieldsSplit(t);
    FieldsNonEmptyIff(t[WordLength(t)..]);
    MoreIsVisible(t, WordLength(t));
  }

  /** The line is an Include with an argument. */
  ghost predicate Includes(line: string) {
    exists a, b :: FirstToken(line, a, b) && EqualFold(line[a..b], "Include") && MoreAfter(line, b)
  }

  /** The line is the old installer's comment. */
  ghost predicate IsOldComment(line: string) {
    exists p, q :: Trimmed(line, p, q) && p < q && EqualFold(line[p..q], LEGACY_MARKER)
  }

  lemma IncludesIff(line: string, p: nat, q: nat)
    requires p < q && Trimmed(line, p, q)
    ensures var f := Fields(line[p..q]); |f| >= 2 && EqualFold(f[0], "Include") <==> Includes(line)
  {
    var t := line[p..q];
    var n := WordLength(t);
    TokenInLine(line, p, q);
    SecondFieldIff(t);
    MoreIff(line, p, q, n);
    FieldsSplit(t);
    assert line[p..p + n] == t[..n];
    OneFirstToken(line, p, p + n);
  }

  lemma OneFirstToken(line: string, a: int, b: int)
    requires FirstToken(line, a, b)
    ensures Includes(line) <==> EqualFold(line[a..b], "Include") && MoreAfter(line, b)
  {
    if Includes(line) {
      var x, y :| FirstToken(line, x, y) && EqualFold(line[x..y], "Include") && MoreAfter(line, y);
      FirstTokenUnique(line, x, y, a, b);
    }
  }

  lemma OldCommentIff(line: string, p: nat, q: nat)
    requires p < q && Trimmed(line, p, q)
    ensures EqualFold(line[p..q], LEGACY_MARKER) <==> IsOldComment(line)
  {
    forall x, y | Trimmed(line, x, y) && x < y ensures x == p && y == q { TrimmedUnique(line, x, y, p, q); }
  }

  /** A legacy line is, up to case and surrounding white space, the marker comment of the old
      installer, or an Include with an argument that names the drop-in directory. */
  lemma LegacyLineIff(line: string)
    ensures IsLegacyLine(line) <==> IsOldComment(line) || (Includes(line) && NamesDropIn(line))
  {
    var p, q := TrimSpaceSpec(line);
    NamedIff(line, p, q);
    if p == q {
      BlankIsNothing(line, p);
    } else {
      IncludesIff(line, p, q);
      OldCommentIff(line, p, q);
    }
  }

  lemma TrimmedUnique(line: string, x: int, y: int, p: int, q: int)
    requires Trimmed(line, x, y) && Trimmed(line, p, q) && x < y && p < q
    ensures x == p && y == q
  {
    assert !IsSpace(line[x]) && !IsSpace(line[p]) && !IsSpace(line[y - 1]) && !IsSpace(line[q - 1]);
  }

  lemma BlankIsNothing(line: string, p: int)
    requires Trimmed(line, p, p) && TrimSpace(line) == ""
    ensures !IsLegacyLine(line) && !IsOldComment(line) && !Includes(line)
  {
    assert Fields("") == [];
    forall x, y | 0 <= x < y <= |line| ensures !Trimmed(line, x, y) && !FirstToken(line, x, y) {
      assert IsSpace(line[x]);
    }
  }

  lemma TokenInLine(line: string, p: nat, q: nat)
    requires Trimmed(line, p, q) && p < q
    ensures var t := line[p..q]; t != "" && !IsSpace(t[0]) && FirstToken(line, p, p + WordLength(t))
  {
    var t := line[p..q];
    WordLengthSpec(t);
    var n := WordLength(t);
    assert forall i :: p <= i < q ==> line[i] == t[i - p];
    assert n < |t| ==> line[p + n] == t[n];
  }

  lemma MoreIff(line: string, p: nat, q: nat, n: nat)
    requires Trimmed(line, p, q) && p < q && n <= q - p
    ensures MoreAfter(line, p + n) <==> MoreAfter(line[p..q], n)
  {
    var t := line[p..q];
    assert forall i :: 0 <= i < |t| ==> t[i] == line[p + i];
    if MoreAfter(line, p + n) {
      var c :| 0 <= p + n < c < |line| && !IsSpace(line[c]);
      assert !IsSpace(t[c - p]);
    }
    if MoreAfter(t, n) {
      var c :| 0 <= n < c < |t| && !IsSpace(t[c]);
      assert !IsSpace(line[p + c]);
    }
  }

  // ---------- what sshd reads ----------

  function Keyword(line: string): string {
    var t := TrimLeft(line);
    t[..WordLength(t)]
  }

  function ValueOf(line: string): string {
    var t := TrimLeft(line);
    TrimSpace(t[WordLength(t)..])
  }

  /** The value in force for a keyword outside every Match block: sshd uses the first one it obtains. */
  function Setting(ls: seq<string>, keyword: string): Option<string> {
    if ls == [] || IsMatchLine(ls[0]) then None
    else if EqualFold(Keyword(ls[0]), keyword) then Some(ValueOf(ls[0]))
    else Setting(ls[1..], keyword)
  }

  lemma {:induction false} SettingAppend(la: seq<string>, rest: seq<string>, keyword: string)
    requires forall l :: l in la ==> !IsMatchLine(l)
    ensures Setting(la + rest, keyword) ==
            if Setting(la, keyword).Some? then Setting(la, keyword) else Setting(rest, keyword)
  {
    if la == [] {
      assert la + rest == rest;
    } else {
      assert (la + rest)[0] == la[0] && (la + rest)[1..] == la[1..] + rest;
      SettingAppend(la[1..], rest, keyword);
    }
  }

  const CA_WORD: string := "TrustedUserCAKeys"
  const PRINCIPALS_WORD: string := "AuthorizedPrincipalsFile"

  lemma {:induction false} WordThenSpace(w: string, rest: string)
    requires forall i :: 0 <= i < |w| ==> !IsSpace(w[i])
    ensures WordLength(w + " " + rest) == |w|
  {
    var s := w + " " + rest;
    if w == "" {
      assert s[0] == ' ';
    } else {
      assert s[0] == w[0] && s[1..] == w[1..] + " " + rest;
      WordThenSpace(w[1..], rest);
    }
  }

  lemma DirectiveReads(w: string, value: string)
    requires w != "" && forall i :: 0 <= i < |w| ==> !IsSpace(w[i])
    ensures Keyword(w + " " + value) == w && ValueOf(w + " " + value) == TrimSpace(value)
  {
    var line := w + " " + value;
    WordThenSpace(w, value);
    assert line[0] == w[0] && TrimLeft(line) == line;
    assert line[..|w|] == w && line[|w|..] == " " + value;
    assert (" " + value)[1..] == value;
  }

  lemma Words()
    ensures forall i :: 0 <= i < |CA_WORD| ==> !IsSpace(CA_WORD[i])
    ensures forall i :: 0 <= i < |PRINCIPALS_WORD| ==> !IsSpace(PRINCIPALS_WORD[i])
    ensures |CA_WORD| == 17 && |PRINCIPALS_WORD| == 24
  {
  }

  /** The opening marker is a comment: its first token is a single character. */
  lemma BeginReads()
    ensures |Keyword(BEGIN)| == 1
  {
    assert BEGIN[0] == '#' && BEGIN[1] == ' ';
    assert TrimLeft(BEGIN) == BEGIN;
    assert WordLength(BEGIN) == 1 + WordLength(BEGIN[1..]) && BEGIN[1..][0] == ' ';
  }

  lemma DirectiveLinesRead(ca: string, principals: string)
    ensures Keyword(CaLine(ca)) == CA_WORD && ValueOf(CaLine(ca)) == TrimSpace(ca)
    ensures Keyword(PrincipalsLine(principals)) == PRINCIPALS_WORD
    ensures ValueOf(PrincipalsLine(principals)) == TrimSpace(principals)
  {
    Words();
    assert CaLine(ca) == CA_WORD + " " + ca;
    assert PrincipalsLine(principals) == PRINCIPALS_WORD + " " + principals;
    DirectiveReads(CA_WORD, ca);
    DirectiveReads(PRINCIPALS_WORD, principals);
  }

  lemma FoldsToItself(w: string)
    ensures EqualFold(w, w)
  {
  }

  /** What the block itself sets. */
  lemma BlockSets(ca: string, principals: string, rest: seq<string>)
    requires PathOk(ca) && PathOk(principals)
    ensures var ls := BlockLines(Sshd(), DirectiveLines(ca, principals)) + rest;
            && Setting(ls, CA_WORD) == Some(TrimSpace(ca))
            && Setting(ls, PRINCIPALS_WORD) == Some(TrimSpace(principals))
  {
    var ls := BlockLines(Sshd(), DirectiveLines(ca, principals)) + rest;
    assert ls[0] == BEGIN && ls[1..][0] == CaLine(ca) && ls[1..][1..][0] == PrincipalsLine(principals);
    PlainDirectives(ca, principals);
    assert forall l :: l in BlockLines(Sshd(), DirectiveLines(ca, principals)) ==> !IsMatchLine(l);
    assert ls[0] in BlockLines(Sshd(), DirectiveLines(ca, principals));
    Words();
    BeginReads();
    DirectiveLinesRead(ca, principals);
    FoldsToItself(CA_WORD);
    FoldsToItself(PRINCIPALS_WORD);
    assert Setting(ls, CA_WORD) == Setting(ls[1..], CA_WORD);
    assert Setting(ls, PRINCIPALS_WORD) == Setting(ls[1..], PRINCIPALS_WORD) == Setting(ls[1..][1..], PRINCIPALS_WORD);
  }

  /** The lines before the point where the block goes. */
  function LinesBefore(content: string): seq<string> { TerminatedLines(Head(Sshd(), Cleaned(Sshd(), content))) }

  /** After an install, whatever the file held: sshd uses the configured CA file and principals pattern,
      unless a line that comes before the block, and so wins, sets the same keyword. */
  lemma SshdReadsTheBlock(content: string, ca: string, principals: string)
    requires PathOk(ca) && PathOk(principals)
    ensures var ls := Split(Upsert(Sshd(), content, ManagedDirectiveBlock(ca, principals)));
            var before := LinesBefore(content);
            && Setting(ls, CA_WORD) ==
                 (if Setting(before, CA_WORD).Some? then Setting(before, CA_WORD) else Some(TrimSpace(ca)))
            && Setting(ls, PRINCIPALS_WORD) ==
                 (if Setting(before, PRINCIPALS_WORD).Some? then Setting(before, PRINCIPALS_WORD)
                  else Some(TrimSpace(principals)))
  {
    SshdIsGood();
    GoodDirectives(ca, principals);
    BlockIsBlock(ca, principals);
    var c, ds := Cleaned(Sshd(), content), DirectiveLines(ca, principals);
    var la, b := SeamExists(Sshd(), c);
    HeadAtSeam(Sshd(), c, la, b);
    TerminatedRoundTrip(la);
    InsertAtSeam(Sshd(), c, Block(Sshd(), ds), la, b);
    SplitInserted(Sshd(), la, b, ds);
    ReadsThrough(la, BlockLines(Sshd(), ds), Split(b), ca, principals);
  }

  lemma ReadsThrough(la: seq<string>, block: seq<string>, rest: seq<string>, ca: string, principals: string)
    requires PathOk(ca) && PathOk(principals) && block == BlockLines(Sshd(), DirectiveLines(ca, principals))
    requires NoMatchLines(Sshd(), la)
    ensures Setting(la + block + rest, CA_WORD) ==
            if Setting(la, CA_WORD).Some? then Setting(la, CA_WORD) else Some(TrimSpace(ca))
    ensures Setting(la + block + rest, PRINCIPALS_WORD) ==
            if Setting(la, PRINCIPALS_WORD).Some? then Setting(la, PRINCIPALS_WORD) else Some(TrimSpace(principals))
  {
    assert la + block + rest == la + (block + rest);
    assert forall l :: l in la ==> !IsMatchLine(l);
    SettingAppend(la, block + rest, CA_WORD);
    SettingAppend(la, block + rest, PRINCIPALS_WORD);
    BlockSets(ca, principals, rest);
  }
}
