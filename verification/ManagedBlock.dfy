/** internal/gatekeeper/sshdconfig.go as an editor of lines: searching, removing and inserting
    a marked block, for any pair of markers and any test of what a Match or a legacy line is. */
module ManagedBlock {
  import opened Text

  // ---------- strings.Index ----------

  predicate At(s: string, p: string, k: nat) {
    k + |p| <= |s| && forall i :: 0 <= i < |p| ==> s[k + i] == p[i]
  }

  predicate Occurs(s: string, p: string) {
    exists k: nat :: k <= |s| && At(s, p, k)
  }

  /** strings.Index, with None for -1. */
  function Index(s: string, p: string): (r: Option<nat>)
    ensures r.Some? ==> r.value + |p| <= |s|
  {
    if At(s, p, 0) then Some(0)
    else if s == "" then None
    else
      var r := Index(s[1..], p);
      if r.None? then None else Some(r.value + 1)
  }

  lemma AtDrop(s: string, p: string, k: nat)
    requires s != ""
    ensures At(s, p, k + 1) <==> At(s[1..], p, k)
  {
  }

  /** Nothing occurs before the index found. */
  lemma {:induction false} IndexLeast(s: string, p: string, k: nat)
    requires At(s, p, k)
    ensures Index(s, p).Some? && Index(s, p).value <= k
  {
    if !At(s, p, 0) {
      AtDrop(s, p, k - 1);
      IndexLeast(s[1..], p, k - 1);
    }
  }

  lemma {:induction false} IndexOccurs(s: string, p: string)
    requires Index(s, p).Some?
    ensures At(s, p, Index(s, p).value)
  {
    if !At(s, p, 0) {
      IndexOccurs(s[1..], p);
      AtDrop(s, p, Index(s[1..], p).value);
    }
  }

  lemma IndexUnique(s: string, p: string, k: nat)
    requires At(s, p, k) && forall j: nat :: j < k ==> !At(s, p, j)
    ensures Index(s, p) == Some(k)
  {
    IndexLeast(s, p, k);
    IndexOccurs(s, p);
  }

  /** The text before a line start: nothing, or text ending in a newline. */
  predicate WholeLines(a: string) { a == "" || a[|a| - 1] == '\n' }

  lemma AtPrefix(a: string, b: string, p: string, k: nat)
    requires k + |p| <= |a|
    ensures At(a + b, p, k) <==> At(a, p, k)
  {
  }

  lemma AtSuffix(a: string, b: string, p: string, k: nat)
    ensures At(a + b, p, |a| + k) <==> At(b, p, k)
  {
  }

  /** A pattern without a newline does not straddle a line end. */
  lemma NoStraddle(a: string, b: string, p: string, k: nat)
    requires WholeLines(a) && NoNewline(p) && k < |a| <= k + |p|
    ensures !At(a + b, p, k)
  {
    if k + |p| <= |a + b| {
      var j := |a| - 1 - k;
      assert (a + b)[k + j] == '\n';
      assert p[j] in p && p[j] != '\n';
    }
  }

  /** Where a pattern first occurs after whole lines that do not contain it. */
  lemma FirstAfterLines(a: string, b: string, p: string)
    requires WholeLines(a) && NoNewline(p) && !Occurs(a, p) && p != "" && At(b, p, 0)
    ensures Index(a + b, p) == Some(|a|)
  {
    AtSuffix(a, b, p, 0);
    forall k: nat | k < |a| ensures !At(a + b, p, k) {
      NotBefore(a, b, p, k);
    }
    IndexUnique(a + b, p, |a|);
  }

  lemma OccursConcat(a: string, b: string, p: string)
    requires WholeLines(a) && NoNewline(p) && p != ""
    ensures Occurs(a + b, p) <==> Occurs(a, p) || Occurs(b, p)
  {
    if Occurs(a, p) {
      var k: nat :| k <= |a| && At(a, p, k);
      AtPrefix(a, b, p, k);
    }
    if Occurs(b, p) {
      var k: nat :| k <= |b| && At(b, p, k);
      AtSuffix(a, b, p, k);
      assert |a| + k <= |a + b|;
    }
    if Occurs(a + b, p) {
      var k: nat :| k <= |a + b| && At(a + b, p, k);
      if k + |p| <= |a| { AtPrefix(a, b, p, k); }
      else if k < |a| { NoStraddle(a, b, p, k); }
      else { AtSuffix(a, b, p, k - |a|); }
    }
  }

  /** A newline at the end adds no occurrence. */
  lemma OccursNewline(a: string, p: string)
    requires NoNewline(p) && p != ""
    ensures Occurs(a + "\n", p) <==> Occurs(a, p)
  {
    if Occurs(a, p) {
      var k: nat :| k <= |a| && At(a, p, k);
      AtPrefix(a, "\n", p, k);
    }
    if Occurs(a + "\n", p) {
      var k: nat :| k <= |a + "\n"| && At(a + "\n", p, k);
      NewlineNotInside(a, p, k);
      AtPrefix(a, "\n", p, k);
    }
  }

  lemma NewlineNotInside(a: string, p: string, k: nat)
    requires NoNewline(p) && p != "" && At(a + "\n", p, k)
    ensures k + |p| <= |a|
  {
    var t, j := a + "\n", |p| - 1;
    assert t[k + j] == p[j] && p[j] in p && p[j] != '\n';
    assert t[|a|] == '\n';
  }

  lemma {:induction false} OccursJoin(ls: seq<string>, p: string)
    requires NoNewline(p) && p != "" && forall l :: l in ls ==> !Occurs(l, p)
    ensures !Occurs(Join(ls), p)
  {
    if |ls| == 0 {
    } else if |ls| == 1 {
      assert ls[0] in ls;
    } else {
      assert ls[0] in ls;
      OccursJoin(ls[1..], p);
      OccursNewline(ls[0], p);
      OccursConcat(ls[0] + "\n", Join(ls[1..]), p);
    }
  }

  lemma {:induction false} OccursSplit(s: string, p: string)
    requires NoNewline(p) && p != "" && !Occurs(s, p)
    ensures forall l :: l in Split(s) ==> !Occurs(l, p)
    decreases |s|
  {
    var k := IndexChar(s, '\n');
    IndexCharSpec(s, '\n');
    if k < |s| {
      var l, rest := s[..k], s[k + 1..];
      assert s == (l + "\n") + rest;
      OccursConcat(l + "\n", rest, p);
      OccursNewline(l, p);
      OccursSplit(rest, p);
    }
  }

  // ---------- whole lines ----------

  lemma Assoc(a: string, b: string, c: string)
    ensures (a + b) + c == a + (b + c)
  {
  }

  lemma TerminatedOne(l: string)
    ensures Terminated([l]) == l + "\n"
  {
    assert [l][..0] == [];
  }

  lemma {:induction false} TerminatedConcat(a: seq<string>, b: seq<string>)
    ensures Terminated(a + b) == Terminated(a) + Terminated(b)
  {
    if b == [] {
      assert a + b == a;
    } else {
      var init, last := b[..|b| - 1], b[|b| - 1] + "\n";
      TerminatedConcat(a, init);
      assert (a + b)[..|a + b| - 1] == a + init;
      Assoc(Terminated(a + init), b[|b| - 1], "\n");
      Assoc(Terminated(init), b[|b| - 1], "\n");
      Assoc(Terminated(a), Terminated(init), last);
    }
  }

  lemma TerminatedCons(l: string, ls: seq<string>, s: string)
    ensures Terminated([l] + ls) + s == l + "\n" + (Terminated(ls) + s)
  {
    TerminatedConcat([l], ls);
    TerminatedOne(l);
    Assoc(l + "\n", Terminated(ls), s);
  }

  lemma TerminatedWhole(ls: seq<string>)
    ensures WholeLines(Terminated(ls))
  {
  }

  lemma {:induction false} OccursTerminated(ls: seq<string>, p: string)
    requires NoNewline(p) && p != "" && forall l :: l in ls ==> !Occurs(l, p)
    ensures !Occurs(Terminated(ls), p)
  {
    if ls != [] {
      var init, last := ls[..|ls| - 1], ls[|ls| - 1];
      assert last in ls;
      OccursTerminated(init, p);
      OccursNewline(last, p);
      TerminatedWhole(init);
      OccursConcat(Terminated(init), last + "\n", p);
      Assoc(Terminated(init), last, "\n");
    }
  }

  lemma {:induction false} SplitTerminated(ls: seq<string>, s: string)
    requires AllNoNewline(ls)
    ensures Split(Terminated(ls) + s) == ls + Split(s)
  {
    if ls == [] {
      assert Terminated(ls) + s == s;
    } else {
      var head, rest := ls[0], ls[1..];
      assert [head] + rest == ls;
      TerminatedCons(head, rest, s);
      SplitTerminated(rest, s);
      SplitConcat(head, Terminated(rest) + s);
      SplitOne(head) by { assert head in ls; }
      ConsAssoc(head, rest, Split(s));
    }
  }

  // ---------- the first Match line ----------

  /** The two markers, and the tests for Match lines and for legacy lines. */
  datatype Syntax = Syntax(begin: string, end: string, isMatch: string -> bool, isLegacy: string -> bool)

  /** Byte offset of the first Match line, or None. */
  function FirstMatch(m: Syntax, s: string): (r: Option<nat>)
    ensures r.Some? ==> r.value <= |s|
    decreases |s|
  {
    var k := IndexChar(s, '\n');
    if m.isMatch(s[..k]) then Some(0)
    else if k == |s| then None
    else Shift(k + 1, FirstMatch(m, s[k + 1..]))
  }

  function Shift(n: nat, r: Option<nat>): Option<nat> { if r.None? then None else Some(n + r.value) }

  /** strings.SplitAfter(s, "\n"). */
  function SplitAfter(s: string): (ps: seq<string>)
    ensures |ps| > 0
    decreases |s|
  {
    var k := IndexChar(s, '\n');
    if k == |s| then [s] else [s[..k + 1]] + SplitAfter(s[k + 1..])
  }

  /** The pieces still to walk, and the offset of the first of them. */
  ghost predicate Walking(m: Syntax, content: string, off: nat, pieces: seq<string>) {
    && off <= |content|
    && pieces == SplitAfter(content[off..])
    && FirstMatch(m, content) == Shift(off, FirstMatch(m, content[off..]))
  }

  predicate BlindToTerminator(m: Syntax, l: string) { m.isMatch(l + "\n") == m.isMatch(l) }

  /** firstMatchOffset: walk the lines, adding up their lengths.
      The test sees each line with its terminator, which must not matter to it. */
  method FirstMatchOffset(m: Syntax, content: string) returns (r: Option<nat>)
    requires forall l :: BlindToTerminator(m, l)
    ensures r == FirstMatch(m, content)
  {
    var off: nat := 0;
    var pieces := SplitAfter(content);
    assert content[0..] == content;
    for i := 0 to |pieces|
      invariant i < |pieces| ==> Walking(m, content, off, pieces[i..])
      invariant i == |pieces| ==> FirstMatch(m, content) == None
    {
      var line := pieces[i];
      assert line == pieces[i..][0] && pieces[i + 1..] == pieces[i..][1..];
      WalkStep(m, content, off, pieces[i..]);
      if m.isMatch(line) { return Some(off); }
      off := off + |line|;
    }
    return None;
  }

  lemma WalkStep(m: Syntax, content: string, off: nat, pieces: seq<string>)
    requires Walking(m, content, off, pieces)
    requires forall l :: BlindToTerminator(m, l)
    ensures m.isMatch(pieces[0]) ==> FirstMatch(m, content) == Some(off)
    ensures !m.isMatch(pieces[0]) ==>
      if |pieces| == 1 then FirstMatch(m, content) == None
      else Walking(m, content, off + |pieces[0]|, pieces[1..])
  {
    var s := content[off..];
    var k := IndexChar(s, '\n');
    if k == |s| {
      LastPiece(m, s);
    } else {
      PieceStep(m, s, k);
      var rest := s[k + 1..];
      assert rest == content[off + (k + 1)..];
      ShiftShift(off, k + 1, FirstMatch(m, rest));
    }
  }

  lemma LastPiece(m: Syntax, s: string)
    requires IndexChar(s, '\n') == |s|
    ensures SplitAfter(s) == [s] && FirstMatch(m, s) == if m.isMatch(s) then Some(0) else None
  {
    assert s[..|s|] == s;
  }

  /** A terminated head line: its piece, the pieces after it, and what it decides. */
  lemma PieceStep(m: Syntax, s: string, k: nat)
    requires k == IndexChar(s, '\n') < |s|
    requires forall l :: BlindToTerminator(m, l)
    ensures var ps := SplitAfter(s);
            |ps[0]| == k + 1 && m.isMatch(ps[0]) == m.isMatch(s[..k]) && ps[1..] == SplitAfter(s[k + 1..])
    ensures FirstMatch(m, s) == if m.isMatch(s[..k]) then Some(0) else Shift(k + 1, FirstMatch(m, s[k + 1..]))
  {
    IndexCharSpec(s, '\n');
    assert s[..k + 1] == s[..k] + "\n";
    assert BlindToTerminator(m, s[..k]);
    var tail := SplitAfter(s[k + 1..]);
    assert ([s[..k + 1]] + tail)[1..] == tail;
  }

  lemma ShiftShift(i: nat, j: nat, r: Option<nat>)
    ensures Shift(i, Shift(j, r)) == Shift(i + j, r)
  {
  }

  // ---------- the editing functions ----------

  /** What the proofs need of the markers and the tests. */
  ghost predicate GoodSyntax(m: Syntax) {
    && NoNewline(m.begin) && NoNewline(m.end) && m.begin != "" && m.end != ""
    && !Occurs(m.begin, m.end) && !Occurs(m.end, m.begin)
    && !m.isMatch(m.begin) && !m.isMatch(m.end) && !m.isMatch("") && !m.isLegacy("")
  }

  /** removeManagedBlock. */
  function Remove(m: Syntax, content: string): string {
    var b := Index(content, m.begin);
    if b.None? then content
    else CutBlock(content, b.value, Index(content[b.value..], m.end), |m.end|)
  }

  /** Drop from `b` through the closing marker found at `b + rel` and one newline; without a
      closing marker, drop everything from `b` on. */
  function CutBlock(content: string, b: nat, rel: Option<nat>, endLength: nat): string
    requires b <= |content| && (rel.Some? ==> b + rel.value + endLength <= |content|)
  {
    if rel.None? then content[..b]
    else content[..b] + content[SkipNewline(content, b + rel.value + endLength)..]
  }

  function SkipNewline(s: string, e: nat): (r: nat)
    requires e <= |s|
    ensures r <= |s|
  {
    if e < |s| && s[e] == '\n' then e + 1 else e
  }

  /** insertBeforeFirstMatch. */
  function InsertBlock(m: Syntax, content: string, block: string): string {
    var i := FirstMatch(m, content);
    if i.Some? then content[..i.value] + block + content[i.value..]
    else if content != "" && content[|content| - 1] != '\n' then content + "\n" + block
    else content + block
  }

  function Kept(m: Syntax, ls: seq<string>): seq<string> {
    if ls == [] then []
    else Kept(m, ls[..|ls| - 1]) + KeptOne(m, ls[|ls| - 1])
  }

  function KeptOne(m: Syntax, l: string): seq<string> { if m.isLegacy(l) then [] else [l] }

  /** stripLegacyIncludeLines: split, keep the lines that pass, join. */
  function Strip(m: Syntax, content: string): string { Join(Kept(m, Split(content))) }

  method StripLegacyIncludeLines(m: Syntax, content: string) returns (r: string)
    ensures r == Strip(m, content)
  {
    var lines := Split(content);
    var out: seq<string> := [];
    for i := 0 to |lines|
      invariant out == Kept(m, lines[..i])
    {
      assert lines[..i + 1][..i] == lines[..i];
      if !m.isLegacy(lines[i]) { out := out + [lines[i]]; }
    }
    assert lines[..|lines|] == lines;
    return Join(out);
  }

  /** upsertManagedBlock. */
  function Upsert(m: Syntax, content: string, block: string): string {
    InsertBlock(m, Strip(m, Remove(m, content)), block)
  }

  /** hasManagedBlockBeforeMatch. */
  predicate BlockBeforeMatch(m: Syntax, content: string) {
    var b := Index(content, m.begin);
    if b.None? || Index(content, m.end).None? then false
    else
      var f := FirstMatch(m, content);
      f.Some? ==> b.value < f.value
  }

  /** A managed block: the markers around directive lines. */
  function BlockLines(m: Syntax, ds: seq<string>): seq<string> { [m.begin] + ds + [m.end] }

  function Block(m: Syntax, ds: seq<string>): string { Terminated(BlockLines(m, ds)) }

  ghost predicate Directive(m: Syntax, d: string) {
    NoNewline(d) && !Occurs(d, m.begin) && !Occurs(d, m.end) && !m.isMatch(d)
  }

  ghost predicate Directives(m: Syntax, ds: seq<string>) { forall d :: d in ds ==> Directive(m, d) }

  // ---------- removing a block ----------

  /** The block as its opening part and its closing line. */
  lemma BlockParts(m: Syntax, ds: seq<string>)
    ensures Block(m, ds) == Terminated([m.begin] + ds) + (m.end + "\n")
    ensures At(Terminated([m.begin] + ds), m.begin, 0)
  {
    TerminatedConcat([m.begin] + ds, [m.end]);
    TerminatedOne(m.end);
    TerminatedCons(m.begin, ds, "");
    assert Terminated([m.begin] + ds) + "" == Terminated([m.begin] + ds);
  }

  /** Opening part `head`, closing marker, newline, rest: the shape Remove looks for. */
  lemma RemoveShape(m: Syntax, s: string, a: string, head: string, close: string, b: string)
    requires NoNewline(m.begin) && NoNewline(m.end) && m.begin != "" && m.end != ""
    requires WholeLines(a) && !Occurs(a, m.begin)
    requires WholeLines(head) && !Occurs(head, m.end) && At(head, m.begin, 0)
    requires close == m.end + "\n" + b && s == a + (head + close)
    ensures Remove(m, s) == a + b
  {
    StartsWith(m.end, "\n", b);
    MarkersFound(m.begin, m.end, s, a, head, close);
    RemoveTail(s, a, head, m.end, close, b);
    RemoveFound(m, s, |head|, a, b);
  }

  lemma StartsWith(a: string, b: string, c: string)
    ensures At(a + b + c, a, 0)
  {
  }

  lemma MarkersFound(begin: string, end: string, s: string, a: string, head: string, close: string)
    requires NoNewline(begin) && NoNewline(end) && begin != "" && end != ""
    requires WholeLines(a) && !Occurs(a, begin) && WholeLines(head) && !Occurs(head, end)
    requires At(head, begin, 0) && At(close, end, 0) && s == a + (head + close)
    ensures Index(s, begin) == Some(|a|) && s[..|a|] == a && Index(s[|a|..], end) == Some(|head|)
  {
    AtPrefix(head, close, begin, 0);
    FirstAfterLines(a, head + close, begin);
    Cut(a, head + close);
    FirstAfterLines(head, close, end);
  }

  lemma RemoveFound(m: Syntax, s: string, j: nat, a: string, b: string)
    requires |a| <= |s| && Index(s, m.begin) == Some(|a|) && Index(s[|a|..], m.end) == Some(j)
    requires |a| + j + |m.end| < |s| && s[|a| + j + |m.end|] == '\n'
    requires s[..|a|] == a && s[|a| + j + |m.end| + 1..] == b
    ensures Remove(m, s) == a + b
  {
    CutBlockAt(s, |a|, j, |m.end|);
    RemoveIsCut(m, s, |a|, j);
  }

  lemma RemoveIsCut(m: Syntax, s: string, i: nat, j: nat)
    requires i <= |s| && Index(s, m.begin) == Some(i) && Index(s[i..], m.end) == Some(j)
    requires i + j + |m.end| <= |s|
    ensures Remove(m, s) == CutBlock(s, i, Some(j), |m.end|)
  {
  }

  lemma CutBlockAt(s: string, i: nat, j: nat, n: nat)
    requires i + j + n < |s| && s[i + j + n] == '\n'
    ensures CutBlock(s, i, Some(j), n) == s[..i] + s[i + j + n + 1..]
  {
  }

  lemma Cut(a: string, b: string)
    ensures (a + b)[..|a|] == a && (a + b)[|a|..] == b
  {
  }

  lemma RemoveTail(s: string, a: string, head: string, end: string, close: string, b: string)
    requires close == end + "\n" + b && s == a + (head + close)
    ensures var e := |a| + |head| + |end|; e < |s| && s[e] == '\n' && s[e + 1..] == b
  {
  }

  /** A block on whole lines is removed exactly, whatever its directives and whatever follows. */
  lemma RemoveBlock(m: Syntax, a: string, ds: seq<string>, b: string)
    requires GoodSyntax(m) && WholeLines(a) && !Occurs(a, m.begin)
    requires forall d :: d in ds ==> !Occurs(d, m.end)
    ensures Remove(m, a + Block(m, ds) + b) == a + b
  {
    var head := Terminated([m.begin] + ds);
    BlockParts(m, ds);
    OccursTerminated([m.begin] + ds, m.end);
    TerminatedWhole([m.begin] + ds);
    Assoc(head, m.end + "\n", b);
    Assoc(a, Block(m, ds), b);
    RemoveShape(m, a + Block(m, ds) + b, a, head, m.end + "\n" + b, b);
  }

  // ---------- inserting a block ----------

  ghost predicate NoMatchLines(m: Syntax, ls: seq<string>) { forall l :: l in ls ==> !m.isMatch(l) }

  lemma FirstMatchCons(m: Syntax, l: string, s: string)
    requires NoNewline(l)
    ensures FirstMatch(m, l + "\n" + s) == if m.isMatch(l) then Some(0) else Shift(|l| + 1, FirstMatch(m, s))
  {
    var t := l + "\n" + s;
    assert t[..|l|] == l && t[|l| + 1..] == s;
    IndexCharUnique(t, '\n', |l|);
  }

  /** Whole lines without a Match line only shift the offset. */
  lemma {:induction false} FirstMatchShift(m: Syntax, ls: seq<string>, s: string)
    requires AllNoNewline(ls) && NoMatchLines(m, ls)
    ensures FirstMatch(m, Terminated(ls) + s) == Shift(|Terminated(ls)|, FirstMatch(m, s))
  {
    if ls == [] {
      assert Terminated(ls) + s == s;
    } else {
      var head, rest := ls[0], ls[1..];
      assert head in ls && [head] + rest == ls;
      FirstMatchShift(m, rest, s);
      FirstMatchPush(m, head, rest, s);
    }
  }

  lemma FirstMatchPush(m: Syntax, l: string, ls: seq<string>, s: string)
    requires NoNewline(l) && !m.isMatch(l)
    requires FirstMatch(m, Terminated(ls) + s) == Shift(|Terminated(ls)|, FirstMatch(m, s))
    ensures FirstMatch(m, Terminated([l] + ls) + s) == Shift(|Terminated([l] + ls)|, FirstMatch(m, s))
  {
    TerminatedCons(l, ls, s);
    FirstMatchCons(m, l, Terminated(ls) + s);
    ShiftShift(|l| + 1, |Terminated(ls)|, FirstMatch(m, s));
  }

  /** The text with its last line terminated, where the block is appended at the end. */
  function Closed(m: Syntax, c: string): string {
    if FirstMatch(m, c).None? && c != "" && c[|c| - 1] != '\n' then c + "\n" else c
  }

  /** Where a block goes: after the lines `la`, before the text `b`. */
  ghost predicate Seam(m: Syntax, c: string, la: seq<string>, b: string) {
    && AllNoNewline(la) && NoMatchLines(m, la)
    && Terminated(la) + b == Closed(m, c)
    && (if FirstMatch(m, c).None? then b == "" else FirstMatch(m, c).value == |Terminated(la)|)
  }

  /** The line that starts at offset k. */
  function LineAt(s: string, k: nat): string
    requires k <= |s|
  {
    s[k..][..IndexChar(s[k..], '\n')]
  }

  lemma LineAtDrop(s: string, i: nat, j: nat)
    requires i <= |s| && j <= |s[i..]|
    ensures LineAt(s[i..], j) == LineAt(s, i + j)
  {
    assert s[i..][j..] == s[i + j..];
  }

  /** The line at the offset found is a Match line. */
  lemma {:induction false} FirstMatchIsMatch(m: Syntax, s: string, o: nat)
    requires FirstMatch(m, s) == Some(o)
    ensures m.isMatch(LineAt(s, o))
    decreases |s|
  {
    var k := IndexChar(s, '\n');
    if m.isMatch(s[..k]) {
      assert s[0..] == s;
    } else {
      var j := FirstMatch(m, s[k + 1..]).value;
      FirstMatchIsMatch(m, s[k + 1..], j);
      LineAtDrop(s, k + 1, j);
    }
  }

  predicate LineStart(s: string, k: int) { 0 <= k <= |s| && (k == 0 || s[k - 1] == '\n') }

  lemma FirstNewline(s: string, i: nat)
    requires i < IndexChar(s, '\n')
    ensures s[i] != '\n'
  {
    IndexCharSpec(s, '\n');
    assert s[i] == s[..IndexChar(s, '\n')][i];
  }

  /** A line start other than the first lies behind the first newline, and starts a line of the rest. */
  lemma LineStartDrop(s: string, k: int)
    requires LineStart(s, k) && k > 0
    ensures var n := IndexChar(s, '\n'); n + 1 <= k && LineStart(s[n + 1..], k - (n + 1))
  {
    if k - 1 < IndexChar(s, '\n') { FirstNewline(s, k - 1); }
  }

  lemma LineStartAdd(s: string, n: nat, k: int)
    requires n < |s| && s[n] == '\n' && LineStart(s[n + 1..], k)
    ensures LineStart(s, n + 1 + k)
  {
  }

  /** The offset found is the start of a line. */
  lemma {:induction false} FirstMatchStartsLine(m: Syntax, s: string, f: nat)
    requires FirstMatch(m, s) == Some(f)
    ensures LineStart(s, f)
    decreases |s|
  {
    var n := IndexChar(s, '\n');
    if !m.isMatch(s[..n]) {
      IndexCharSpec(s, '\n');
      FirstMatchStartsLine(m, s[n + 1..], f - (n + 1));
      LineStartAdd(s, n, f - (n + 1));
    }
  }

  /** No line that starts before the offset found, or none at all, is a Match line. */
  lemma {:induction false} NoMatchBefore(m: Syntax, s: string, k: int)
    requires LineStart(s, k) && (FirstMatch(m, s).Some? ==> k < FirstMatch(m, s).value)
    ensures !m.isMatch(LineAt(s, k))
    decreases |s|
  {
    var n := IndexChar(s, '\n');
    if k == 0 {
      assert s[0..] == s;
    } else {
      LineStartDrop(s, k);
      LineAtDrop(s, n + 1, k - (n + 1));
      NoMatchBefore(m, s[n + 1..], k - (n + 1));
    }
  }

  ghost predicate FirstAt(s: string, p: string, b: nat) {
    At(s, p, b) && forall j: nat :: j < b ==> !At(s, p, j)
  }

  lemma IndexIff(s: string, p: string)
    ensures Index(s, p).None? <==> !Occurs(s, p)
    ensures Index(s, p).Some? ==> FirstAt(s, p, Index(s, p).value)
  {
    if Index(s, p).Some? { IndexOccurs(s, p); }
    forall k: nat | At(s, p, k) ensures Index(s, p).Some? && Index(s, p).value <= k { IndexLeast(s, p, k); }
  }

  /** No Match line starts at or before position b. */
  ghost predicate NoMatchUpTo(m: Syntax, c: string, b: nat) {
    forall k: nat :: k <= b && LineStart(c, k) ==> !m.isMatch(LineAt(c, k))
  }

  lemma NoMatchUpToIff(m: Syntax, c: string, b: nat)
    ensures NoMatchUpTo(m, c, b) <==> (FirstMatch(m, c).Some? ==> b < FirstMatch(m, c).value)
  {
    var f := FirstMatch(m, c);
    if f.Some? {
      FirstMatchIsMatch(m, c, f.value);
      FirstMatchStartsLine(m, c, f.value);
    }
    if f.Some? ==> b < f.value {
      forall k: nat | k <= b && LineStart(c, k) ensures !m.isMatch(LineAt(c, k)) { NoMatchBefore(m, c, k); }
    }
  }

  /** The health check says yes exactly when both markers occur and no line that starts at or before
      the first opening marker is a Match line. */
  lemma HealthCheckIff(m: Syntax, c: string)
    ensures BlockBeforeMatch(m, c) <==>
            Occurs(c, m.end) && exists b: nat :: FirstAt(c, m.begin, b) && NoMatchUpTo(m, c, b)
  {
    IndexIff(c, m.begin);
    IndexIff(c, m.end);
    var b := Index(c, m.begin);
    if b.Some? { NoMatchUpToIff(m, c, b.value); }
    forall b': nat | FirstAt(c, m.begin, b') ensures b == Some(b') { IndexUnique(c, m.begin, b'); }
  }

  /** What removing does, by cases: nothing without an opening marker; everything from it on without a
      closing one after it; otherwise everything from the one through the other and one newline. */
  lemma RemoveCases(m: Syntax, s: string, i: nat, j: nat)
    ensures !Occurs(s, m.begin) ==> Remove(m, s) == s
    ensures FirstAt(s, m.begin, i) && i <= |s| && !Occurs(s[i..], m.end) ==> Remove(m, s) == s[..i]
    ensures FirstAt(s, m.begin, i) && i <= |s| && FirstAt(s[i..], m.end, j) && i + j + |m.end| <= |s| ==>
      var e := i + j + |m.end|;
      Remove(m, s) == s[..i] + (if e < |s| && s[e] == '\n' then s[e + 1..] else s[e..])
  {
    IndexIff(s, m.begin);
    if FirstAt(s, m.begin, i) && i <= |s| {
      IndexUnique(s, m.begin, i);
      IndexIff(s[i..], m.end);
      if FirstAt(s[i..], m.end, j) { IndexUnique(s[i..], m.end, j); }
    }
  }

  lemma {:induction false} SeamExists(m: Syntax, c: string) returns (la: seq<string>, b: string)
    requires !m.isMatch("")
    ensures Seam(m, c, la, b)
    decreases |c|
  {
    var k := IndexChar(c, '\n');
    if m.isMatch(c[..k]) {
      la, b := [], c;
      assert Terminated([]) + c == c;
    } else if k == |c| {
      NoNewlineAtAll(c);
      la, b := SeamAtEnd(m, c);
    } else {
      var head, rest := c[..k], c[k + 1..];
      HeadLine(c, k);
      var la', b' := SeamExists(m, rest);
      la, b := [head] + la', b';
      SeamCons(m, head, rest, la', b');
    }
  }

  lemma NoNewlineAtAll(s: string)
    requires IndexChar(s, '\n') == |s|
    ensures NoNewline(s) && s[..|s|] == s
  {
    IndexCharSpec(s, '\n');
  }

  lemma HeadLine(s: string, k: nat)
    requires k == IndexChar(s, '\n') < |s|
    ensures NoNewline(s[..k]) && s == s[..k] + "\n" + s[k + 1..]
  {
    IndexCharSpec(s, '\n');
    SplitThree(s, k);
    assert [s[k]] == "\n";
  }

  lemma SplitThree(s: string, k: nat)
    requires k < |s|
    ensures s == s[..k] + [s[k]] + s[k + 1..]
  {
  }

  lemma SeamAtEnd(m: Syntax, c: string) returns (la: seq<string>, b: string)
    requires NoNewline(c) && !m.isMatch(c)
    ensures Seam(m, c, la, b)
  {
    IndexCharUnique(c, '\n', |c|);
    assert c[..|c|] == c;
    la, b := if c == "" then [] else [c], "";
    TerminatedOne(c);
    assert Terminated(la) + "" == Terminated(la);
    if c != "" { assert c[|c| - 1] in c; }
  }

  lemma SeamCons(m: Syntax, l: string, c: string, la: seq<string>, b: string)
    requires NoNewline(l) && !m.isMatch(l) && Seam(m, c, la, b)
    ensures Seam(m, l + "\n" + c, [l] + la, b)
  {
    var t := l + "\n" + c;
    FirstMatchCons(m, l, c);
    TerminatedCons(l, la, b);
    TerminatedCons(l, la, "");
    assert Terminated(la) + "" == Terminated(la) && Terminated([l] + la) + "" == Terminated([l] + la);
    assert c != "" ==> t[|t| - 1] == c[|c| - 1];
    Assoc(l + "\n", c, "\n");
  }

  lemma InsertAtSeam(m: Syntax, c: string, block: string, la: seq<string>, b: string)
    requires Seam(m, c, la, b)
    ensures InsertBlock(m, c, block) == Terminated(la) + block + b
  {
    var a := Terminated(la);
    if FirstMatch(m, c).Some? {
      assert c[..|a|] == a && c[|a|..] == b;
    } else {
      assert a + "" == a && (a + block) + "" == a + block;
    }
  }

  lemma BlockLinesPlain(m: Syntax, ds: seq<string>)
    requires GoodSyntax(m) && Directives(m, ds)
    ensures AllNoNewline(BlockLines(m, ds)) && NoMatchLines(m, BlockLines(m, ds))
  {
    forall d | d in ds ensures NoNewline(d) && !m.isMatch(d) { assert Directive(m, d); }
  }

  lemma StartsHere(a: string, b: string, p: string)
    requires At(b, p, 0)
    ensures At(a + b, p, |a|)
  {
    AtSuffix(a, b, p, 0);
  }

  /** Both markers occur in the text around a block, the opening one no later than the block. */
  lemma MarkersPresent(m: Syntax, a: string, ds: seq<string>, b: string)
    ensures var u := a + Block(m, ds) + b;
            && At(u, m.begin, |a|)
            && Index(u, m.begin).Some? && Index(u, m.begin).value <= |a| && Index(u, m.end).Some?
  {
    var head, close := Terminated([m.begin] + ds), m.end + "\n" + b;
    BlockParts(m, ds);
    Assoc(a, Block(m, ds), b);
    Assoc(head, m.end + "\n", b);
    AtPrefix(head, close, m.begin, 0);
    StartsHere(a, head + close, m.begin);
    Assoc(a, head, close);
    StartsWith(m.end, "\n", b);
    StartsHere(a + head, close, m.end);
    var u := a + (head + close);
    IndexLeast(u, m.begin, |a|);
    IndexLeast(u, m.end, |a + head|);
  }

  /** For every text, the inserted block is found by the health check, before any Match line. */
  lemma InsertIsEffective(m: Syntax, c: string, ds: seq<string>)
    requires GoodSyntax(m) && Directives(m, ds)
    ensures BlockBeforeMatch(m, InsertBlock(m, c, Block(m, ds)))
  {
    var la, b := SeamExists(m, c);
    var block := Block(m, ds);
    InsertAtSeam(m, c, block, la, b);
    MarkersPresent(m, Terminated(la), ds, b);
    BlockLinesPlain(m, ds);
    FirstMatchShift(m, BlockLines(m, ds), b);
    FirstMatchShift(m, la, block + b);
    Assoc(Terminated(la), block, b);
    BlockParts(m, ds);
  }

  lemma NotInClosed(m: Syntax, c: string, la: seq<string>, b: string)
    requires GoodSyntax(m) && Seam(m, c, la, b) && !Occurs(c, m.begin)
    ensures !Occurs(Terminated(la), m.begin) && !Occurs(b, m.begin)
  {
    OccursNewline(c, m.begin);
    TerminatedWhole(la);
    OccursConcat(Terminated(la), b, m.begin);
  }

  /** Removing undoes inserting, up to the terminator of the last line. */
  lemma RemoveUndoesInsert(m: Syntax, c: string, ds: seq<string>)
    requires GoodSyntax(m) && Directives(m, ds) && !Occurs(c, m.begin)
    ensures Remove(m, InsertBlock(m, c, Block(m, ds))) == Closed(m, c)
  {
    var la, b := SeamExists(m, c);
    InsertAtSeam(m, c, Block(m, ds), la, b);
    NotInClosed(m, c, la, b);
    TerminatedWhole(la);
    forall d | d in ds ensures !Occurs(d, m.end) { assert Directive(m, d); }
    RemoveBlock(m, Terminated(la), ds, b);
  }

  /** Inserting into the closed text gives the same result. */
  lemma InsertClosed(m: Syntax, c: string, block: string)
    requires !m.isMatch("")
    ensures InsertBlock(m, Closed(m, c), block) == InsertBlock(m, c, block)
  {
    if Closed(m, c) != c {
      var la, b := SeamExists(m, c);
      FirstMatchShift(m, la, "");
      assert FirstMatch(m, "") == None;
      assert Terminated(la) + "" == Terminated(la);
    }
  }

  // ---------- stripping ----------

  lemma {:induction false} KeptSubset(m: Syntax, ls: seq<string>)
    ensures forall l :: l in Kept(m, ls) <==> l in ls && !m.isLegacy(l)
  {
    if ls != [] {
      KeptSubset(m, ls[..|ls| - 1]);
      assert ls == ls[..|ls| - 1] + [ls[|ls| - 1]];
    }
  }

  lemma {:induction false} KeptAll(m: Syntax, ls: seq<string>)
    requires forall l :: l in ls ==> !m.isLegacy(l)
    ensures Kept(m, ls) == ls
  {
    if ls != [] {
      assert ls[|ls| - 1] in ls;
      KeptAll(m, ls[..|ls| - 1]);
      assert ls == ls[..|ls| - 1] + [ls[|ls| - 1]];
    }
  }

  /** The lines left by stripping, as Split sees them: none at all reads as one empty line. */
  function KeptOrBlank(m: Syntax, ls: seq<string>): seq<string> {
    if Kept(m, ls) == [] then [""] else Kept(m, ls)
  }

  lemma StripLines(m: Syntax, s: string)
    ensures Split(Strip(m, s)) == KeptOrBlank(m, Split(s))
  {
    SplitNoNewline(s);
    KeptSubset(m, Split(s));
    var k := Kept(m, Split(s));
    if k == [] { SplitOne(""); } else { SplitJoin(k); }
  }

  /** A stripped text, closed or not, has nothing left to strip. */
  lemma StripStable(m: Syntax, s: string)
    requires GoodSyntax(m)
    ensures Strip(m, Closed(m, Strip(m, s))) == Closed(m, Strip(m, s))
  {
    var c := Strip(m, s);
    var d := Closed(m, c);
    StripLines(m, s);
    KeptSubset(m, Split(s));
    SplitConcat(c, "");
    SplitOne("");
    assert c + "\n" + "" == c + "\n";
    KeptAll(m, Split(d));
    JoinSplit(d);
  }

  lemma StripAddsNoMarker(m: Syntax, s: string)
    requires GoodSyntax(m) && !Occurs(s, m.begin)
    ensures !Occurs(Strip(m, s), m.begin)
  {
    OccursSplit(s, m.begin);
    KeptSubset(m, Split(s));
    OccursJoin(Kept(m, Split(s)), m.begin);
  }

  // ---------- the whole edit ----------

  /** The text before the point where a block goes. */
  function Head(m: Syntax, c: string): string {
    var k := FirstMatch(m, c);
    if k.Some? then c[..k.value] else Closed(m, c)
  }

  lemma HeadAtSeam(m: Syntax, c: string, la: seq<string>, b: string)
    requires Seam(m, c, la, b)
    ensures Head(m, c) == Terminated(la)
  {
    if FirstMatch(m, c).Some? {
      assert (Terminated(la) + b)[..|Terminated(la)|] == Terminated(la);
    } else {
      assert Terminated(la) + "" == Terminated(la);
    }
  }

  /** What is left of a text once the first block and the legacy lines are gone. */
  function Cleaned(m: Syntax, x: string): string { Strip(m, Remove(m, x)) }

  /** Upserting twice is upserting once, whenever no opening marker is left before the insertion point;
      markers left after the first Match line do no harm. */
  lemma UpsertIdempotent(m: Syntax, x: string, ds: seq<string>)
    requires GoodSyntax(m) && Directives(m, ds) && !Occurs(Head(m, Cleaned(m, x)), m.begin)
    ensures var u := Upsert(m, x, Block(m, ds)); Upsert(m, u, Block(m, ds)) == u
  {
    var c := Cleaned(m, x);
    var la, b := SeamExists(m, c);
    HeadAtSeam(m, c, la, b);
    InsertAtSeam(m, c, Block(m, ds), la, b);
    TerminatedWhole(la);
    forall d | d in ds ensures !Occurs(d, m.end) { assert Directive(m, d); }
    RemoveBlock(m, Terminated(la), ds, b);
    StripStable(m, Remove(m, x));
    InsertClosed(m, c, Block(m, ds));
  }

  /** In particular when one removal leaves no opening marker at all. */
  lemma OneRemovalClearsHead(m: Syntax, x: string)
    requires GoodSyntax(m) && !Occurs(Remove(m, x), m.begin)
    ensures !Occurs(Cleaned(m, x), m.begin) && !Occurs(Head(m, Cleaned(m, x)), m.begin)
  {
    var c := Cleaned(m, x);
    StripAddsNoMarker(m, Remove(m, x));
    var la, b := SeamExists(m, c);
    HeadAtSeam(m, c, la, b);
    NotInClosed(m, c, la, b);
  }

  /** The opening marker then occurs exactly once. */
  lemma InsertMarksOnce(m: Syntax, c: string, ds: seq<string>)
    requires GoodSyntax(m) && Directives(m, ds) && !Occurs(c, m.begin)
    ensures exists b :: OccursOnlyAt(InsertBlock(m, c, Block(m, ds)), m.begin, b)
  {
    var la, b := SeamExists(m, c);
    var a, block := Terminated(la), Block(m, ds);
    InsertAtSeam(m, c, block, la, b);
    NotInClosed(m, c, la, b);
    TerminatedWhole(la);
    MarkersPresent(m, a, ds, b);
    var tail := Terminated(ds + [m.end]) + b;
    forall d | d in ds + [m.end] ensures !Occurs(d, m.begin) {
      if d in ds { assert Directive(m, d); }
    }
    OccursTerminated(ds + [m.end], m.begin);
    TerminatedWhole(ds + [m.end]);
    OccursConcat(Terminated(ds + [m.end]), b, m.begin);
    assert BlockLines(m, ds) == [m.begin] + (ds + [m.end]);
    TerminatedCons(m.begin, ds + [m.end], b);
    Assoc(a, block, b);
    forall k: nat ensures At(a + (m.begin + "\n" + tail), m.begin, k) <==> k == |a| {
      MarkerOnlyAt(m, a, tail, k);
    }
    assert OccursOnlyAt(InsertBlock(m, c, block), m.begin, |a|);
  }

  ghost predicate OccursOnlyAt(s: string, p: string, b: nat) {
    forall k: nat :: At(s, p, k) <==> k == b
  }

  lemma MarkerOnlyAt(m: Syntax, a: string, tail: string, k: nat)
    requires GoodSyntax(m) && WholeLines(a) && !Occurs(a, m.begin) && !Occurs(tail, m.begin)
    ensures At(a + (m.begin + "\n" + tail), m.begin, k) <==> k == |a|
  {
    var p := m.begin;
    var line := a + (p + "\n");
    Assoc(a, p + "\n", tail);
    if k < |a| {
      NotBefore(a, p + "\n" + tail, p, k);
    } else if k == |a| {
      StartsWith(p, "\n", tail);
      StartsHere(a, p + "\n" + tail, p);
    } else if k < |line| {
      NoStraddle(line, tail, p, k);
    } else {
      NotAfter(line, tail, p, k - |line|);
    }
  }

  lemma NotBefore(a: string, b: string, p: string, k: nat)
    requires WholeLines(a) && NoNewline(p) && p != "" && !Occurs(a, p) && k < |a|
    ensures !At(a + b, p, k)
  {
    if k + |p| <= |a| { AtPrefix(a, b, p, k); } else { NoStraddle(a, b, p, k); }
  }

  lemma NotAfter(a: string, b: string, p: string, k: nat)
    requires !Occurs(b, p)
    ensures !At(a + b, p, |a| + k)
  {
    AtSuffix(a, b, p, k);
  }

  /** Line by line: inserting puts the block's lines into the lines of the text, in their order. */
  lemma InsertKeepsLines(m: Syntax, c: string, ds: seq<string>)
    requires GoodSyntax(m) && Directives(m, ds)
    ensures InsertedSomewhere(Split(c), BlockLines(m, ds), Split(InsertBlock(m, c, Block(m, ds))))
  {
    var la, b := SeamExists(m, c);
    InsertAtSeam(m, c, Block(m, ds), la, b);
    SplitInserted(m, la, b, ds);
    SeamLines(m, c, la, b);
    InsertedHere(Split(c), |la|, BlockLines(m, ds), Split(b), Split(InsertBlock(m, c, Block(m, ds))));
  }

  lemma InsertedHere(ls: seq<string>, k: nat, block: seq<string>, tail: seq<string>, out: seq<string>)
    requires k <= |ls| && out == ls[..k] + block + tail
    requires tail == ls[k..] || (k == |ls| && tail == [""])
    ensures InsertedSomewhere(ls, block, out)
  {
    assert k == |ls| ==> ls[..k] == ls;
    assert InsertedAt(ls, k, block, out);
  }

  ghost predicate InsertedSomewhere(ls: seq<string>, block: seq<string>, out: seq<string>) {
    exists k :: 0 <= k <= |ls| && InsertedAt(ls, k, block, out)
  }

  /** Upserting over a line-aligned block keeps every other line that is not legacy, in order. */
  lemma UpsertKeepsLines(m: Syntax, pre: seq<string>, prior: seq<string>, post: string, ds: seq<string>)
    requires GoodSyntax(m) && Directives(m, ds)
    requires AllNoNewline(pre) && !Occurs(Terminated(pre), m.begin)
    requires forall d :: d in prior ==> !Occurs(d, m.end)
    ensures var x := Terminated(pre) + Block(m, prior) + post;
            InsertedSomewhere(KeptOrBlank(m, pre + Split(post)), BlockLines(m, ds), Split(Upsert(m, x, Block(m, ds))))
  {
    TerminatedWhole(pre);
    RemoveBlock(m, Terminated(pre), prior, post);
    SplitTerminated(pre, post);
    StripLines(m, Terminated(pre) + post);
    InsertKeepsLines(m, Strip(m, Terminated(pre) + post), ds);
  }

  /** `out` is `ls` with the block's lines put in before position k; a last line that had no
      terminator gets one. */
  ghost predicate InsertedAt(ls: seq<string>, k: int, block: seq<string>, out: seq<string>)
    requires 0 <= k <= |ls|
  {
    out == ls[..k] + block + ls[k..] || (k == |ls| && out == ls + block + [""])
  }

  lemma SplitInserted(m: Syntax, la: seq<string>, b: string, ds: seq<string>)
    requires GoodSyntax(m) && Directives(m, ds) && AllNoNewline(la)
    ensures Split(Terminated(la) + Block(m, ds) + b) == la + BlockLines(m, ds) + Split(b)
  {
    BlockLinesPlain(m, ds);
    SplitTerminated(BlockLines(m, ds), b);
    SplitTerminated(la, Block(m, ds) + b);
    Assoc(Terminated(la), Block(m, ds), b);
    assert la + (BlockLines(m, ds) + Split(b)) == la + BlockLines(m, ds) + Split(b);
  }

  lemma SeamLines(m: Syntax, c: string, la: seq<string>, b: string)
    requires Seam(m, c, la, b)
    ensures |la| <= |Split(c)| && Split(c)[..|la|] == la
    ensures Split(b) == Split(c)[|la|..] || (|la| == |Split(c)| && Split(b) == [""])
  {
    SplitTerminated(la, b);
    if Closed(m, c) != c {
      SplitConcat(c, "");
      SplitOne("");
      assert c + "\n" + "" == c + "\n";
      assert la == Split(c) by {
        assert la + [""] == Split(c) + [""];
        assert (la + [""])[..|la|] == la && (Split(c) + [""])[..|Split(c)|] == Split(c);
      }
    }
  }

  // ---------- why one removal must be enough ----------

  ghost predicate PlainLines(m: Syntax, ls: seq<string>) {
    AllNoNewline(ls) && NoMatchLines(m, ls) && forall l :: l in ls ==> !m.isLegacy(l)
  }

  lemma PlainBlock(m: Syntax, ds: seq<string>)
    requires GoodSyntax(m) && Directives(m, ds) && !m.isLegacy(m.begin) && !m.isLegacy(m.end)
    requires forall d :: d in ds ==> !m.isLegacy(d)
    ensures PlainLines(m, BlockLines(m, ds))
  {
    BlockLinesPlain(m, ds);
  }

  /** Stripping leaves plain lines alone, and a block is appended after them. */
  lemma PlainText(m: Syntax, ls: seq<string>, block: string)
    requires GoodSyntax(m) && PlainLines(m, ls)
    ensures Strip(m, Terminated(ls)) == Terminated(ls)
    ensures InsertBlock(m, Terminated(ls), block) == Terminated(ls) + block
  {
    var t := Terminated(ls);
    assert t + "" == t;
    SplitTerminated(ls, "");
    SplitOne("");
    KeptAll(m, ls + [""]);
    JoinSplit(t);
    FirstMatchShift(m, ls, "");
    assert FirstMatch(m, "") == None;
    TerminatedWhole(ls);
  }

  /** The pieces of a cleaned text have nothing to strip. */
  lemma SeamNotLegacy(m: Syntax, x: string, la: seq<string>, b: string)
    requires GoodSyntax(m) && Seam(m, Cleaned(m, x), la, b)
    ensures forall l :: l in la || l in Split(b) ==> !m.isLegacy(l)
  {
    var c := Cleaned(m, x);
    StripLines(m, Remove(m, x));
    KeptSubset(m, Split(Remove(m, x)));
    SplitTerminated(la, b);
    if Closed(m, c) != c {
      SplitConcat(c, "");
      SplitOne("");
      assert c + "\n" + "" == c + "\n";
    }
    forall l | l in la || l in Split(b) ensures l in la + Split(b) { }
  }

  /** The text after the insertion point starts with the first Match line, or is empty. */
  lemma MatchAfterSeam(m: Syntax, c: string, la: seq<string>, b: string)
    requires !m.isMatch("") && Seam(m, c, la, b)
    ensures if b == "" then FirstMatch(m, b) == None else FirstMatch(m, b) == Some(0)
  {
    FirstMatchShift(m, la, b);
    assert FirstMatch(m, "") == None;
    if FirstMatch(m, c).None? {
    } else {
      assert Closed(m, c) == c;
    }
  }

  /** Other plain lines before the same text meet it at the same seam, with nothing to strip. */
  lemma SeamAfter(m: Syntax, lv: seq<string>, b: string)
    requires GoodSyntax(m) && PlainLines(m, lv) && forall l :: l in Split(b) ==> !m.isLegacy(l)
    requires if b == "" then FirstMatch(m, b) == None else FirstMatch(m, b) == Some(0)
    ensures var v := Terminated(lv) + b; Strip(m, v) == v && Seam(m, v, lv, b)
  {
    var v := Terminated(lv) + b;
    SplitTerminated(lv, b);
    KeptAll(m, lv + Split(b));
    JoinSplit(v);
    FirstMatchShift(m, lv, b);
    TerminatedWhole(lv);
    if b == "" { assert v == Terminated(lv); }
  }

  /** What the second upsert makes of lines around one old block before the insertion point. */
  lemma SecondUpsert(m: Syntax, pre: seq<string>, prior: seq<string>, post: seq<string>, b: string, ds: seq<string>)
    requires GoodSyntax(m) && PlainLines(m, pre + post) && forall l :: l in Split(b) ==> !m.isLegacy(l)
    requires if b == "" then FirstMatch(m, b) == None else FirstMatch(m, b) == Some(0)
    requires !Occurs(Terminated(pre), m.begin) && forall d :: d in prior ==> !Occurs(d, m.end)
    ensures Upsert(m, Terminated(pre) + Block(m, prior) + (Terminated(post) + b), Block(m, ds))
         == Terminated(pre + post) + Block(m, ds) + b
  {
    TerminatedWhole(pre);
    RemoveBlock(m, Terminated(pre), prior, Terminated(post) + b);
    TerminatedConcat(pre, post);
    Assoc(Terminated(pre), Terminated(post), b);
    SeamAfter(m, pre + post, b);
    InsertAtSeam(m, Terminated(pre + post) + b, Block(m, ds), pre + post, b);
  }

  lemma TerminatedInjective(a: seq<string>, b: seq<string>)
    requires AllNoNewline(a) && AllNoNewline(b)
    ensures Terminated(a) == Terminated(b) <==> a == b
  {
    TerminatedRoundTrip(a);
    TerminatedRoundTrip(b);
  }

  lemma SameHead(a: string, b: string, c: string, d: string)
    requires a != b
    ensures a + c + d != b + c + d
  {
    CancelRight(a, b, c);
    CancelRight(a + c, b + c, d);
  }

  lemma LinesOf(m: Syntax, pre: seq<string>, prior: seq<string>, post: seq<string>, ds: seq<string>, b: string)
    ensures Terminated(pre + BlockLines(m, prior) + post) + Block(m, ds) + b
         == Terminated(pre) + Block(m, prior) + (Terminated(post + BlockLines(m, ds)) + b)
  {
    TerminatedConcat(pre + BlockLines(m, prior), post);
    TerminatedConcat(pre, BlockLines(m, prior));
    TerminatedConcat(post, BlockLines(m, ds));
    var a, t, n := Terminated(pre) + Block(m, prior), Terminated(post), Block(m, ds);
    Assoc(a, t, n);
    Assoc(a, t + n, b);
  }

  /** What SecondUpsert needs of a cleaned text, for other lines than its own before the seam. */
  lemma CleanedParts(m: Syntax, x: string, la: seq<string>, b: string)
    requires GoodSyntax(m) && Seam(m, Cleaned(m, x), la, b)
    ensures PlainLines(m, la) && forall l :: l in Split(b) ==> !m.isLegacy(l)
    ensures if b == "" then FirstMatch(m, b) == None else FirstMatch(m, b) == Some(0)
  {
    SeamNotLegacy(m, x, la, b);
    MatchAfterSeam(m, Cleaned(m, x), la, b);
  }

  lemma SameLines(la: seq<string>, lv: seq<string>, block: string, b: string)
    requires AllNoNewline(la) && AllNoNewline(lv)
    ensures Terminated(la) + block + b == Terminated(lv) + block + b <==> la == lv
  {
    TerminatedInjective(la, lv);
    if Terminated(la) != Terminated(lv) { SameHead(Terminated(la), Terminated(lv), block, b); }
  }

  /** Both upserts over an old block left before the insertion point. */
  lemma LeftoverUpserts(m: Syntax, x: string, pre: seq<string>, prior: seq<string>, post: seq<string>, b: string,
                        ds: seq<string>)
    requires GoodSyntax(m) && PlainLines(m, BlockLines(m, ds))
    requires Seam(m, Cleaned(m, x), pre + BlockLines(m, prior) + post, b)
    requires !Occurs(Terminated(pre), m.begin) && forall d :: d in prior ==> !Occurs(d, m.end)
    ensures var u := Upsert(m, x, Block(m, ds));
            && u == Terminated(pre + (BlockLines(m, prior) + post)) + Block(m, ds) + b
            && Upsert(m, u, Block(m, ds)) == Terminated(pre + (post + BlockLines(m, ds))) + Block(m, ds) + b
            && AllNoNewline(pre + (BlockLines(m, prior) + post)) && AllNoNewline(pre + (post + BlockLines(m, ds)))
  {
    var la := pre + BlockLines(m, prior) + post;
    InsertAtSeam(m, Cleaned(m, x), Block(m, ds), la, b);
    CleanedParts(m, x, la, b);
    LinesOf(m, pre, prior, post, ds, b);
    PlainParts(m, pre, BlockLines(m, prior), post, BlockLines(m, ds));
    SecondUpsert(m, pre, prior, post + BlockLines(m, ds), b, ds);
    AssocLines(pre, BlockLines(m, prior), post);
  }

  lemma AssocLines(a: seq<string>, b: seq<string>, c: seq<string>)
    ensures a + b + c == a + (b + c)
  {
  }

  lemma SameTails(pre: seq<string>, left: seq<string>, right: seq<string>, block: string, b: string)
    requires AllNoNewline(pre + left) && AllNoNewline(pre + right)
    ensures Terminated(pre + left) + block + b == Terminated(pre + right) + block + b <==> left == right
  {
    SameLines(pre + left, pre + right, block, b);
    CancelLines(pre, left, right);
  }

  /** An old block left, on lines of its own, before the insertion point: the second upsert changes
      nothing if and only if moving the new block past what follows the old one changes nothing. */
  lemma LeftoverStableIff(m: Syntax, x: string, pre: seq<string>, prior: seq<string>, post: seq<string>, b: string,
                          ds: seq<string>)
    requires GoodSyntax(m) && PlainLines(m, BlockLines(m, ds))
    requires Seam(m, Cleaned(m, x), pre + BlockLines(m, prior) + post, b)
    requires !Occurs(Terminated(pre), m.begin) && forall d :: d in prior ==> !Occurs(d, m.end)
    ensures var u := Upsert(m, x, Block(m, ds));
            Upsert(m, u, Block(m, ds)) == u <==> BlockLines(m, prior) + post == post + BlockLines(m, ds)
  {
    LeftoverUpserts(m, x, pre, prior, post, b, ds);
    SameTails(pre, BlockLines(m, prior) + post, post + BlockLines(m, ds), Block(m, ds), b);
  }

  lemma PlainParts(m: Syntax, pre: seq<string>, old0: seq<string>, post: seq<string>, block: seq<string>)
    requires PlainLines(m, pre + old0 + post) && PlainLines(m, block)
    ensures PlainLines(m, pre + (post + block)) && PlainLines(m, pre + [])
  {
    forall l | l in pre || l in post ensures l in pre + old0 + post { }
  }

  lemma CancelLines(a: seq<string>, b: seq<string>, c: seq<string>)
    ensures a + b == a + c <==> b == c
  {
    assert (a + b)[|a|..] == b && (a + c)[|a|..] == c;
  }

  /** With no marker after the old block, that is: it is the new block, right at the insertion point. */
  lemma LastLeftoverStableIff(m: Syntax, prior: seq<string>, post: seq<string>, ds: seq<string>)
    requires m.begin !in post
    ensures BlockLines(m, prior) + post == post + BlockLines(m, ds) <==> post == [] && prior == ds
  {
    var l, r := BlockLines(m, prior) + post, post + BlockLines(m, ds);
    assert l[0] == m.begin && r[0] == (post + [m.begin])[0];
    assert post != [] ==> r[0] in post;
    assert BlockLines(m, prior)[1..|prior| + 1] == prior && BlockLines(m, ds)[1..|ds| + 1] == ds;
    assert post == [] ==> l == BlockLines(m, prior) && r == BlockLines(m, ds);
  }

  /** An opening marker and what follows it, up to and with a new block, read as one block. */
  lemma UnclosedReadsAsBlock(m: Syntax, pre: seq<string>, post: seq<string>, ds: seq<string>, b: string)
    ensures Terminated(pre + [m.begin] + post) + Block(m, ds) + b
         == Terminated(pre) + Block(m, post + [m.begin] + ds) + (Terminated([]) + b)
  {
    var la, prior := pre + [m.begin] + post, post + [m.begin] + ds;
    TerminatedConcat(la, BlockLines(m, ds));
    TerminatedConcat(pre, BlockLines(m, prior));
    assert la + BlockLines(m, ds) == pre + BlockLines(m, prior);
    assert Terminated([]) + b == b;
  }

  lemma NoEndInUnclosed(m: Syntax, post: seq<string>, ds: seq<string>)
    requires GoodSyntax(m) && Directives(m, ds) && forall l :: l in post ==> !Occurs(l, m.end)
    ensures forall d :: d in post + [m.begin] + ds ==> !Occurs(d, m.end)
  {
    forall d | d in ds ensures !Occurs(d, m.end) { assert Directive(m, d); }
  }

  lemma UnclosedUpserts(m: Syntax, x: string, pre: seq<string>, post: seq<string>, b: string, ds: seq<string>)
    requires GoodSyntax(m) && Directives(m, ds)
    requires Seam(m, Cleaned(m, x), pre + [m.begin] + post, b)
    requires !Occurs(Terminated(pre), m.begin) && forall l :: l in post ==> !Occurs(l, m.end)
    ensures var u := Upsert(m, x, Block(m, ds));
            && u == Terminated(pre + [m.begin] + post) + Block(m, ds) + b
            && Upsert(m, u, Block(m, ds)) == Terminated(pre + []) + Block(m, ds) + b
  {
    var la := pre + [m.begin] + post;
    InsertAtSeam(m, Cleaned(m, x), Block(m, ds), la, b);
    CleanedParts(m, x, la, b);
    UnclosedReadsAsBlock(m, pre, post, ds, b);
    NoEndInUnclosed(m, post, ds);
    PlainParts(m, pre, [m.begin], post, []);
    SecondUpsert(m, pre, post + [m.begin] + ds, [], b, ds);
  }

  /** An opening marker left without its closing one before the insertion point: the second upsert
      takes it away together with the block, and always changes the text. */
  lemma UnclosedLeftoverIsNotStable(m: Syntax, x: string, pre: seq<string>, post: seq<string>, b: string,
                                    ds: seq<string>)
    requires GoodSyntax(m) && Directives(m, ds)
    requires Seam(m, Cleaned(m, x), pre + [m.begin] + post, b)
    requires !Occurs(Terminated(pre), m.begin) && forall l :: l in post ==> !Occurs(l, m.end)
    ensures var u := Upsert(m, x, Block(m, ds)); Upsert(m, u, Block(m, ds)) != u
  {
    var la := pre + [m.begin] + post;
    UnclosedUpserts(m, x, pre, post, b, ds);
    assert |la| > |pre + []| && AllNoNewline(la) && forall l :: l in pre + [] ==> l in la;
    SameLines(la, pre + [], Block(m, ds), b);
  }

  /** Two blocks left by hand: only one goes per run, so the second run changes the text again. */
  lemma TwoOldBlocksChangeTwice(m: Syntax, prior: seq<string>, ds: seq<string>)
    requires GoodSyntax(m) && Directives(m, prior) && Directives(m, ds)
    requires PlainLines(m, BlockLines(m, prior)) && PlainLines(m, BlockLines(m, ds))
    requires Block(m, prior) != Block(m, ds)
    ensures var u := Upsert(m, Block(m, prior) + Block(m, prior), Block(m, ds));
            && u == Block(m, prior) + Block(m, ds)
            && Upsert(m, u, Block(m, ds)) == Block(m, ds) + Block(m, ds) != u
  {
    var p, n := Block(m, prior), Block(m, ds);
    forall d | d in prior ensures !Occurs(d, m.end) { assert Directive(m, d); }
    assert !Occurs("", m.begin);
    RemoveBlock(m, "", prior, p);
    RemoveBlock(m, "", prior, n);
    EmptyLeft(p, p);
    EmptyLeft(p, n);
    PlainText(m, BlockLines(m, prior), n);
    PlainText(m, BlockLines(m, ds), n);
    CancelRight(n, p, n);
  }

  lemma EmptyLeft(a: string, b: string)
    ensures "" + a + b == a + b && "" + b == b
  {
  }

  lemma CancelRight(a: string, b: string, c: string)
    requires a != b
    ensures a + c != b + c
  {
    if |a| == |b| { assert (a + c)[..|a|] == a && (b + c)[..|a|] == b; }
  }
}
