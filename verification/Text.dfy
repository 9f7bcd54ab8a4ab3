/** Strings as the Go code sees them: byte-wise order, lines, and searching.
    A `char` stands for one byte of the original text. */
module Text {

  datatype Option<+T> = None | Some(value: T)

  // ---------- byte-wise lexicographic order ----------

  /** Go's `a <= b` on strings, and SQLite's BINARY collation. */
  predicate StrLe(a: string, b: string) {
    a == "" || (b != "" && (a[0] < b[0] || (a[0] == b[0] && StrLe(a[1..], b[1..]))))
  }

  predicate StrLt(a: string, b: string) {
    a != b && StrLe(a, b)
  }

  lemma {:induction false} StrLeRefl(a: string)
    ensures StrLe(a, a)
  {
    if a != "" { StrLeRefl(a[1..]); }
  }

  lemma {:induction false} StrLeTotal(a: string, b: string)
    ensures StrLe(a, b) || StrLe(b, a)
  {
    if a != "" && b != "" && a[0] == b[0] { StrLeTotal(a[1..], b[1..]); }
  }

  lemma {:induction false} StrLeAntisym(a: string, b: string)
    requires StrLe(a, b) && StrLe(b, a)
    ensures a == b
  {
    if a != "" {
      StrLeAntisym(a[1..], b[1..]);
      assert a == [a[0]] + a[1..] && b == [b[0]] + b[1..];
    }
  }

  lemma {:induction false} StrLeTrans(a: string, b: string, c: string)
    requires StrLe(a, b) && StrLe(b, c)
    ensures StrLe(a, c)
  {
    if a != "" && a[0] == b[0] && b[0] == c[0] { StrLeTrans(a[1..], b[1..], c[1..]); }
  }

  lemma StrLtTrans(a: string, b: string, c: string)
    requires StrLe(a, b) && StrLe(b, c) && (a != b || b != c)
    ensures StrLt(a, c)
  {
    StrLeTrans(a, b, c);
    if a == c { StrLeAntisym(a, b); }
  }

  /** The order is decided by the first byte that differs. */
  lemma {:induction false} StrLtAtFirstDifference(a: string, b: string, k: nat)
    requires k < |a| && k < |b| && a[..k] == b[..k] && a[k] < b[k]
    ensures StrLt(a, b) && !StrLe(b, a)
    decreases k
  {
    if k > 0 {
      assert a[..k][0] == b[..k][0] && a[1..][..k - 1] == a[..k][1..] && b[1..][..k - 1] == b[..k][1..];
      StrLtAtFirstDifference(a[1..], b[1..], k - 1);
    }
  }

  /** A proper extension sorts after the string it extends. */
  lemma {:induction false} StrLtExtension(a: string, suffix: string)
    requires suffix != ""
    ensures StrLt(a, a + suffix)
  {
    if a != "" {
      StrLtExtension(a[1..], suffix);
      assert (a + suffix)[1..] == a[1..] + suffix;
    }
    assert |a| < |a + suffix|;
  }

  /** unicode.IsSpace. */
  predicate IsSpace(c: char) {
    var n := c as int;
    9 <= n <= 13 || n == 32 || n == 0x85 || n == 0xA0 || n == 0x1680 || 0x2000 <= n <= 0x200A
    || n == 0x2028 || n == 0x2029 || n == 0x202F || n == 0x205F || n == 0x3000
  }

  /** Among the ASCII characters, exactly the six white-space ones. */
  lemma AsciiSpaceIff(c: char)
    requires c as int < 128
    ensures IsSpace(c) <==> c == ' ' || c == '\t' || c == '\n' || c == '\U{000B}' || c == '\U{000C}' || c == '\r'
  {
  }

  // ---------- searching for one character ----------

  /** Position of the first `c`, or the length when there is none. */
  function IndexChar(s: string, c: char): (k: nat)
    ensures k <= |s|
  {
    if s == "" || s[0] == c then 0 else 1 + IndexChar(s[1..], c)
  }

  lemma {:induction false} IndexCharSpec(s: string, c: char)
    ensures var k := IndexChar(s, c); c !in s[..k] && (k < |s| ==> s[k] == c)
  {
    if s != "" && s[0] != c {
      IndexCharSpec(s[1..], c);
      var k := IndexChar(s[1..], c);
      assert s[..1 + k] == [s[0]] + s[1..][..k];
    }
  }

  lemma IndexCharUnique(s: string, c: char, k: nat)
    requires k <= |s| && c !in s[..k] && (k < |s| ==> s[k] == c)
    ensures IndexChar(s, c) == k
  {
    IndexCharSpec(s, c);
    var j := IndexChar(s, c);
    assert forall i :: 0 <= i < k ==> s[..k][i] == s[i] && s[i] != c;
    assert forall i :: 0 <= i < j ==> s[..j][i] == s[i] && s[i] != c;
  }

  // ---------- lines ----------

  predicate NoNewline(s: string) { '\n' !in s }

  /** strings.Split(s, "\n"): always at least one piece, the last one not terminated. */
  function Split(s: string): (ls: seq<string>)
    ensures |ls| > 0
    decreases |s|
  {
    var k := IndexChar(s, '\n');
    if k == |s| then [s] else [s[..k]] + Split(s[k + 1..])
  }

  predicate AllNoNewline(ls: seq<string>) { forall l :: l in ls ==> NoNewline(l) }

  lemma {:induction false} SplitNoNewline(s: string)
    ensures AllNoNewline(Split(s))
    decreases |s|
  {
    var k := IndexChar(s, '\n');
    IndexCharSpec(s, '\n');
    assert s[..|s|] == s;
    if k < |s| { SplitNoNewline(s[k + 1..]); }
  }

  /** strings.Join(ls, "\n"). */
  function Join(ls: seq<string>): string {
    if |ls| == 0 then "" else if |ls| == 1 then ls[0] else ls[0] + "\n" + Join(ls[1..])
  }

  lemma {:induction false} JoinSplit(s: string)
    ensures Join(Split(s)) == s
    decreases |s|
  {
    var k := IndexChar(s, '\n');
    IndexCharSpec(s, '\n');
    if k < |s| {
      JoinSplit(s[k + 1..]);
      assert Split(s)[1..] == Split(s[k + 1..]);
      assert s == s[..k] + [s[k]] + s[k + 1..];
    }
  }

  lemma SplitOne(l: string)
    requires NoNewline(l)
    ensures Split(l) == [l]
  {
    IndexCharUnique(l, '\n', |l|);
  }

  lemma ConsAssoc(x: string, xs: seq<string>, ys: seq<string>)
    ensures [x] + (xs + ys) == ([x] + xs) + ys
  {
  }

  /** The head line of a text and what follows it. */
  lemma SplitAt(s: string, k: nat)
    requires k < |s| && NoNewline(s[..k]) && s[k] == '\n'
    ensures Split(s) == [s[..k]] + Split(s[k + 1..])
  {
    IndexCharUnique(s, '\n', k);
  }

  /** Splitting distributes over a newline. */
  lemma {:induction false} SplitConcat(a: string, b: string)
    ensures Split(a + "\n" + b) == Split(a) + Split(b)
    decreases |a|
  {
    var s := a + "\n" + b;
    var k := IndexChar(a, '\n');
    IndexCharSpec(a, '\n');
    assert s[..k] == a[..k];
    SplitAt(s, k);
    if k == |a| {
      assert s[k + 1..] == b && a[..k] == a;
    } else {
      var rest := a[k + 1..];
      assert s[k + 1..] == rest + "\n" + b;
      SplitConcat(rest, b);
      SplitAt(a, k);
      ConsAssoc(a[..k], Split(rest), Split(b));
    }
  }

  lemma {:induction false} SplitJoin(ls: seq<string>)
    requires |ls| > 0
    requires AllNoNewline(ls)
    ensures Split(Join(ls)) == ls
  {
    SplitOne(ls[0]);
    if |ls| == 1 {
      assert ls == [ls[0]];
    } else {
      SplitConcat(ls[0], Join(ls[1..]));
      SplitJoin(ls[1..]);
      assert ls == [ls[0]] + ls[1..];
    }
  }

  lemma {:induction false} JoinConcat(a: seq<string>, b: seq<string>)
    requires |a| > 0 && |b| > 0
    ensures Join(a + b) == Join(a) + "\n" + Join(b)
  {
    if |a| == 1 {
      assert (a + b)[1..] == b;
    } else {
      JoinConcat(a[1..], b);
      assert (a + b)[1..] == a[1..] + b;
    }
  }

  /** Text without a newline only lengthens the last line. */
  lemma {:induction false} AppendToLastLine(s: string, l: string)
    requires NoNewline(l)
    ensures var ls := Split(s); Split(s + l) == ls[..|ls| - 1] + [ls[|ls| - 1] + l]
    decreases |s|
  {
    var k := IndexChar(s, '\n');
    IndexCharSpec(s, '\n');
    var t := s + l;
    if k == |s| {
      assert s[..k] == s;
      SplitOne(t);
    } else {
      assert t[..k] == s[..k];
      IndexCharUnique(t, '\n', k);
      assert t[k + 1..] == s[k + 1..] + l;
      AppendToLastLine(s[k + 1..], l);
      var tail := Split(s[k + 1..]);
      ConsAssoc(s[..k], tail[..|tail| - 1], [tail[|tail| - 1] + l]);
      assert ([s[..k]] + tail)[..|tail|] == [s[..k]] + tail[..|tail| - 1];
    }
  }

  /** Every line followed by a newline: what `fmt.Fprintln` writes line by line. */
  function Terminated(ls: seq<string>): string {
    if ls == [] then "" else Terminated(ls[..|ls| - 1]) + ls[|ls| - 1] + "\n"
  }

  /** The lines of a text whose last line is terminated. */
  function TerminatedLines(s: string): seq<string> {
    var ls := Split(s);
    ls[..|ls| - 1]
  }

  lemma {:induction false} TerminatedRoundTrip(ls: seq<string>)
    requires AllNoNewline(ls)
    ensures Split(Terminated(ls)) == ls + [""]
    ensures TerminatedLines(Terminated(ls)) == ls
  {
    if ls != [] {
      var init, last := ls[..|ls| - 1], ls[|ls| - 1];
      assert NoNewline(last) && AllNoNewline(init);
      TerminatedRoundTrip(init);
      var t := Terminated(init) + last;
      AppendToLastLine(Terminated(init), last);
      assert (init + [""])[..|init|] == init && "" + last == last;
      assert init + [last] == ls;
      SplitConcat(t, "");
      SplitOne("");
      assert Terminated(ls) == t + "\n" + "";
    }
    SplitOne("");
    assert (ls + [""])[..|ls|] == ls;
  }
}
