/** internal/policyhash: the canonical bytes of a policy and their hash. */
module PolicyHash {
  import opened Text

  datatype Grant = Grant(username: string, caller: string)

  /** blake3 as a collision-free function: a digest remembers its preimage.
      `NoHash` is the empty string the code uses for an empty policy. */
  datatype Hash = NoHash | Blake3(bytes: string)

  predicate GrantLe(g: Grant, h: Grant) {
    if g.username != h.username then StrLe(g.username, h.username) else StrLe(g.caller, h.caller)
  }

  lemma GrantLeTotal(g: Grant, h: Grant)
    ensures GrantLe(g, h) || GrantLe(h, g)
  {
    StrLeTotal(g.username, h.username);
    StrLeTotal(g.caller, h.caller);
  }

  lemma GrantLeAntisym(g: Grant, h: Grant)
    requires GrantLe(g, h) && GrantLe(h, g)
    ensures g == h
  {
    if g.username != h.username {
      StrLeAntisym(g.username, h.username);
    } else {
      StrLeAntisym(g.caller, h.caller);
    }
  }

  lemma GrantLeTrans(g: Grant, h: Grant, k: Grant)
    requires GrantLe(g, h) && GrantLe(h, k)
    ensures GrantLe(g, k)
  {
    if g.username == h.username == k.username {
      StrLeTrans(g.caller, h.caller, k.caller);
    } else {
      StrLtTrans(g.username, h.username, k.username) by {
        StrLeRefl(g.username);
        StrLeRefl(k.username);
      }
    }
  }

  predicate Sorted(gs: seq<Grant>) {
    forall i, j :: 0 <= i < j < |gs| ==> GrantLe(gs[i], gs[j])
  }

  function Insert(g: Grant, gs: seq<Grant>): (r: seq<Grant>)
    ensures multiset(r) == multiset(gs) + multiset{g}
  {
    if gs == [] || GrantLe(g, gs[0]) then
      [g] + gs
    else
      assert gs == [gs[0]] + gs[1..];
      [gs[0]] + Insert(g, gs[1..])
  }

  /** What sort.Slice leaves, and what ORDER BY username, caller_token_id returns. */
  function Sort(gs: seq<Grant>): (r: seq<Grant>)
    ensures multiset(r) == multiset(gs)
  {
    if gs == [] then [] else
      assert gs == gs[..|gs| - 1] + [gs[|gs| - 1]];
      Insert(gs[|gs| - 1], Sort(gs[..|gs| - 1]))
  }

  lemma {:induction false} InsertSorted(g: Grant, gs: seq<Grant>)
    requires Sorted(gs)
    ensures Sorted(Insert(g, gs))
  {
    if gs == [] {
    } else if GrantLe(g, gs[0]) {
      forall j | 0 <= j < |gs| ensures GrantLe(g, gs[j]) {
        if 0 < j { GrantLeTrans(g, gs[0], gs[j]); }
      }
    } else {
      InsertSorted(g, gs[1..]);
      GrantLeTotal(g, gs[0]);
      var r := Insert(g, gs[1..]);
      forall j | 0 <= j < |r| ensures GrantLe(gs[0], r[j]) {
        assert r[j] in multiset(r);
        assert r[j] == g || r[j] in gs[1..];
      }
    }
  }

  lemma {:induction false} SortSorts(gs: seq<Grant>)
    ensures Sorted(Sort(gs))
  {
    if gs != [] {
      SortSorts(gs[..|gs| - 1]);
      InsertSorted(gs[|gs| - 1], Sort(gs[..|gs| - 1]));
    }
  }

  /** In the order used everywhere: by username, and by caller within one username. */
  lemma SortOrders(gs: seq<Grant>, i: nat, j: nat)
    requires i < j < |Sort(gs)|
    ensures var g, h := Sort(gs)[i], Sort(gs)[j];
            StrLt(g.username, h.username) || (g.username == h.username && StrLe(g.caller, h.caller))
  {
    SortSorts(gs);
    assert GrantLe(Sort(gs)[i], Sort(gs)[j]);
  }

  lemma LeastFirst(gs: seq<Grant>, g: Grant)
    requires Sorted(gs) && g in multiset(gs)
    ensures GrantLe(gs[0], g)
  {
    StrLeRefl(g.caller);
  }

  lemma TailMultiset(gs: seq<Grant>)
    requires gs != []
    ensures multiset(gs[1..]) == multiset(gs) - multiset{gs[0]}
  {
    assert gs == [gs[0]] + gs[1..];
  }

  /** Sorting leaves nothing to chance: one sorted order per multiset. */
  lemma {:induction false} SortedUnique(a: seq<Grant>, b: seq<Grant>)
    requires Sorted(a) && Sorted(b) && multiset(a) == multiset(b)
    ensures a == b
  {
    assert |multiset(a)| == |a| && |multiset(b)| == |b|;
    if a != [] {
      LeastFirst(a, b[0]) by { assert b[0] in multiset(b); }
      LeastFirst(b, a[0]) by { assert a[0] in multiset(a); }
      GrantLeAntisym(a[0], b[0]);
      TailMultiset(a);
      TailMultiset(b);
      SortedUnique(a[1..], b[1..]);
      assert a == [a[0]] + a[1..] && b == [b[0]] + b[1..];
    }
  }

  // ---------- canonical bytes ----------

  function LineOf(g: Grant): string { g.username + ":" + g.caller + "\n" }

  function Lines(gs: seq<Grant>): string {
    if gs == [] then "" else LineOf(gs[0]) + Lines(gs[1..])
  }

  function CanonicalBytes(gs: seq<Grant>): string { Lines(Sort(gs)) }

  lemma {:induction false} LinesSnoc(gs: seq<Grant>, g: Grant)
    ensures Lines(gs + [g]) == Lines(gs) + LineOf(g)
  {
    if gs == [] {
      assert gs + [g] == [g];
    } else {
      LinesSnoc(gs[1..], g);
      assert (gs + [g])[1..] == gs[1..] + [g];
    }
  }

  lemma AppendedLine(b: string, g: Grant)
    ensures b + g.username + ":" + g.caller + "\n" == b + LineOf(g)
  {
  }

  /** Canonical: sort a copy, then append one line per grant. */
  method Canonical(grants: seq<Grant>) returns (b: string)
    ensures b == CanonicalBytes(grants)
  {
    if |grants| == 0 { return ""; }
    var sorted := Sort(grants);
    b := "";
    for i := 0 to |sorted|
      invariant b == Lines(sorted[..i])
    {
      var g := sorted[i];
      LinesSnoc(sorted[..i], g);
      assert sorted[..i + 1] == sorted[..i] + [g];
      ghost var before := b;
      b := b + g.username;
      b := b + ":";
      b := b + g.caller;
      b := b + "\n";
      AppendedLine(before, g);
    }
    assert sorted[..|sorted|] == sorted;
  }

  function HashOf(grants: seq<Grant>): Hash {
    var c := CanonicalBytes(grants);
    if |c| == 0 then NoHash else Blake3(c)
  }

  method ComputeHash(grants: seq<Grant>) returns (h: Hash)
    ensures h == HashOf(grants)
  {
    var c := Canonical(grants);
    if |c| == 0 { return NoHash; }
    return Blake3(c);
  }

  /** Reading canonical bytes back: each line is cut at its last colon. */
  function Parse(b: string): seq<Grant>
    decreases |b|
  {
    var k := IndexChar(b, '\n');
    if k == |b| then [] else [ParseLine(b[..k])] + Parse(b[k + 1..])
  }

  function ParseLine(l: string): Grant {
    var j := LastColon(l);
    if j == |l| then Grant(l, "") else Grant(l[..j], l[j + 1..])
  }

  /** Position of the last colon, or the length when there is none. */
  function LastColon(l: string): (j: nat)
    ensures j <= |l| && (j < |l| ==> l[j] == ':')
  {
    if l == "" then 0
    else if l[|l| - 1] == ':' then |l| - 1
    else
      var j := LastColon(l[..|l| - 1]);
      if j == |l| - 1 then |l| else j
  }

  lemma {:induction false} LastColonAt(u: string, c: string)
    requires ':' !in c
    ensures LastColon(u + ":" + c) == |u|
  {
    var l := u + ":" + c;
    if c != "" {
      assert l[|l| - 1] == c[|c| - 1];
      LastColonAt(u, c[..|c| - 1]);
      assert l[..|l| - 1] == u + ":" + c[..|c| - 1];
    }
  }

  /** Names the format can carry: no newline anywhere, no colon in the caller id. */
  predicate Clean(g: Grant) {
    NoNewline(g.username) && NoNewline(g.caller) && ':' !in g.caller
  }

  predicate AllClean(gs: seq<Grant>) { forall g :: g in gs ==> Clean(g) }

  lemma {:induction false} ParseLines(gs: seq<Grant>)
    requires AllClean(gs)
    ensures Parse(Lines(gs)) == gs
  {
    if gs != [] {
      var g, rest := gs[0], Lines(gs[1..]);
      var l := g.username + ":" + g.caller;
      var b := Lines(gs);
      assert Clean(g);
      assert b == l + "\n" + rest;
      assert b[..|l|] == l && b[|l|] == '\n' && b[|l| + 1..] == rest;
      IndexCharUnique(b, '\n', |l|);
      LastColonAt(g.username, g.caller);
      assert l[..|g.username|] == g.username && l[|g.username| + 1..] == g.caller;
      ParseLines(gs[1..]);
      assert gs == [g] + gs[1..];
    }
  }

  // ---------- what the format promises ----------

  /** The bytes do not depend on the order in which the grants are given. */
  lemma CanonicalIgnoresOrder(a: seq<Grant>, b: seq<Grant>)
    requires multiset(a) == multiset(b)
    ensures CanonicalBytes(a) == CanonicalBytes(b)
  {
    SortSorts(a);
    SortSorts(b);
    SortedUnique(Sort(a), Sort(b));
  }

  lemma CleanSort(gs: seq<Grant>)
    requires AllClean(gs)
    ensures AllClean(Sort(gs))
  {
    forall g | g in Sort(gs) ensures Clean(g) {
      assert g in multiset(Sort(gs));
    }
  }

  /** On clean names the bytes determine the grants: equal bytes exactly when equal multisets. */
  lemma CanonicalInjective(a: seq<Grant>, b: seq<Grant>)
    requires AllClean(a) && AllClean(b)
    ensures CanonicalBytes(a) == CanonicalBytes(b) <==> multiset(a) == multiset(b)
  {
    if multiset(a) == multiset(b) { CanonicalIgnoresOrder(a, b); }
    if CanonicalBytes(a) == CanonicalBytes(b) {
      CleanSort(a);
      CleanSort(b);
      ParseLines(Sort(a));
      ParseLines(Sort(b));
    }
  }

  /** A colon in a caller id loses the boundary: two different policies, one encoding. */
  lemma ColonCollides()
    ensures var a, b := [Grant("a:b", "c")], [Grant("a", "b:c")];
            CanonicalBytes(a) == CanonicalBytes(b) && multiset(a) != multiset(b)
  {
    var a, b := [Grant("a:b", "c")], [Grant("a", "b:c")];
    assert Sort(a) == a && Sort(b) == b by {
      assert a[..0] == [] && b[..0] == [];
    }
    assert Lines(a) == LineOf(a[0]) + Lines(a[1..]) && Lines(b) == LineOf(b[0]) + Lines(b[1..]);
    assert a[0] in multiset(a) && a[0] !in multiset(b);
  }

  /** So does a newline in a username: one grant reads as two. */
  lemma NewlineCollides()
    ensures var a, b := [Grant("a" + ":" + "b" + "\n" + "c", "d")], [Grant("a", "b"), Grant("c", "d")];
            CanonicalBytes(a) == CanonicalBytes(b) && multiset(a) != multiset(b)
  {
    var a, b := [Grant("a" + ":" + "b" + "\n" + "c", "d")], [Grant("a", "b"), Grant("c", "d")];
    assert GrantLe(b[0], b[1]);
    SortedUnique(Sort(a), a) by { SortSorts(a); }
    SortedUnique(Sort(b), b) by { SortSorts(b); }
    LinesOne(a[0]);
    LinesSnoc([b[0]], b[1]);
    LinesOne(b[0]);
    assert [b[0]] + [b[1]] == b && [a[0]] == a;
    OneLineReadsAsTwo("a", "b", "c", "d");
    assert |multiset(a)| == 1 && |multiset(b)| == 2;
  }

  lemma OneLineReadsAsTwo(u: string, c: string, v: string, d: string)
    ensures LineOf(Grant(u + ":" + c + "\n" + v, d)) == LineOf(Grant(u, c)) + LineOf(Grant(v, d))
  {
  }

  lemma LinesOne(g: Grant)
    ensures Lines([g]) == LineOf(g)
  {
    assert [g][1..] == [];
  }

  /** No bytes, hence the empty hash, exactly when there are no grants. */
  lemma HashEmptyIff(gs: seq<Grant>)
    ensures CanonicalBytes(gs) == "" <==> gs == []
    ensures HashOf(gs) == NoHash <==> gs == []
  {
    assert |multiset(Sort(gs))| == |Sort(gs)| && |multiset(gs)| == |gs|;
    var s := Sort(gs);
    if s != [] { assert |LineOf(s[0])| > 0; }
  }

  /** Equal hashes mean equal policies, and conversely. */
  lemma HashInjective(a: seq<Grant>, b: seq<Grant>)
    requires AllClean(a) && AllClean(b)
    ensures HashOf(a) == HashOf(b) <==> multiset(a) == multiset(b)
  {
    CanonicalInjective(a, b);
    HashEmptyIff(a);
    HashEmptyIff(b);
  }
}
