/** The policy as it travels: grants grouped by username, one group per principals file. */
module Policy {
  import opened Text
  import opened PolicyHash

  datatype Principal = Principal(username: string, callers: seq<string>)

  /** api.PolicyPayload: what a heartbeat response carries and an agent applies. */
  datatype Payload = Payload(version: nat, hash: Hash, principals: seq<Principal>)

  function PairsOf(p: Principal): seq<Grant> {
    seq(|p.callers|, i requires 0 <= i < |p.callers| => Grant(p.username, p.callers[i]))
  }

  function Flatten(ps: seq<Principal>): seq<Grant> {
    if ps == [] then [] else Flatten(ps[..|ps| - 1]) + PairsOf(ps[|ps| - 1])
  }

  /** Consecutive rows of one username become one principal, in row order. */
  function Group(rows: seq<Grant>): seq<Principal> {
    if rows == [] then [] else AddRow(Group(rows[..|rows| - 1]), rows[|rows| - 1])
  }

  function AddRow(ps: seq<Principal>, g: Grant): seq<Principal> {
    if ps != [] && ps[|ps| - 1].username == g.username then
      ps[|ps| - 1 := Principal(g.username, ps[|ps| - 1].callers + [g.caller])]
    else
      ps + [Principal(g.username, [g.caller])]
  }

  predicate Ascending(ps: seq<Principal>) {
    forall i, j :: 0 <= i < j < |ps| ==> StrLt(ps[i].username, ps[j].username)
  }

  predicate NonEmptyCallers(ps: seq<Principal>) {
    forall p :: p in ps ==> p.callers != []
  }

  lemma FlattenAddRow(ps: seq<Principal>, g: Grant)
    ensures Flatten(AddRow(ps, g)) == Flatten(ps) + [g]
  {
    var r := AddRow(ps, g);
    if ps != [] && ps[|ps| - 1].username == g.username {
      assert r[..|r| - 1] == ps[..|ps| - 1];
      assert PairsOf(r[|r| - 1]) == PairsOf(ps[|ps| - 1]) + [g];
    } else {
      assert r[..|r| - 1] == ps;
      assert PairsOf(r[|r| - 1]) == [g];
    }
  }

  lemma {:induction false} FlattenGroup(rows: seq<Grant>)
    ensures Flatten(Group(rows)) == rows
  {
    if rows != [] {
      var init, last := rows[..|rows| - 1], rows[|rows| - 1];
      var ps := Group(init);
      FlattenGroup(init);
      FlattenAddRow(ps, last);
      assert Group(rows) == AddRow(ps, last);
      assert init + [last] == rows;
    }
  }

  lemma {:induction false} FlattenMembership(ps: seq<Principal>, g: Grant)
    ensures g in Flatten(ps) <==> exists i :: 0 <= i < |ps| && ps[i].username == g.username && g.caller in ps[i].callers
  {
    if ps != [] {
      var init, p := ps[..|ps| - 1], ps[|ps| - 1];
      FlattenMembership(init, g);
      assert forall i :: 0 <= i < |init| ==> init[i] == ps[i];
      assert g in PairsOf(p) <==> p.username == g.username && g.caller in p.callers by {
        if p.username == g.username && g.caller in p.callers {
          var k :| 0 <= k < |p.callers| && p.callers[k] == g.caller;
          assert PairsOf(p)[k] == g;
        }
      }
    }
  }

  /** The last group carries the last row's username. */
  lemma GroupLast(rows: seq<Grant>)
    requires rows != []
    ensures Group(rows) != [] && Group(rows)[|Group(rows)| - 1].username == rows[|rows| - 1].username
  {
  }

  lemma {:induction false} GroupShape(rows: seq<Grant>)
    requires Sorted(rows)
    ensures Ascending(Group(rows)) && NonEmptyCallers(Group(rows))
  {
    if |rows| > 0 {
      var init, g := rows[..|rows| - 1], rows[|rows| - 1];
      GroupShape(init);
      if init != [] {
        GroupLast(init);
        assert GrantLe(init[|init| - 1], g);
        StrLeRefl(g.username);
        AddRowShape(Group(init), g);
      }
    }
  }

  lemma AddRowShape(ps: seq<Principal>, g: Grant)
    requires Ascending(ps) && NonEmptyCallers(ps)
    requires ps != [] ==> StrLe(ps[|ps| - 1].username, g.username)
    ensures Ascending(AddRow(ps, g)) && NonEmptyCallers(AddRow(ps, g))
  {
    if ps != [] && ps[|ps| - 1].username != g.username {
      forall i | 0 <= i < |ps| ensures StrLt(ps[i].username, g.username) {
        StrLeRefl(ps[i].username);
        StrLtTrans(ps[i].username, ps[|ps| - 1].username, g.username);
      }
    }
  }

  /** Grouping is the only way to read sorted rows as ascending, non-empty groups. */
  lemma {:induction false} GroupUnique(ps: seq<Principal>)
    requires Ascending(ps) && NonEmptyCallers(ps)
    ensures Group(Flatten(ps)) == ps
  {
    if ps != [] {
      var init, p := ps[..|ps| - 1], ps[|ps| - 1];
      GroupUnique(init);
      GroupAppend(Flatten(init), p, |p.callers|);
      assert PairsOf(p)[..|p.callers|] == PairsOf(p);
      assert p.callers[..|p.callers|] == p.callers;
    }
  }

  lemma {:induction false} GroupAppend(rows: seq<Grant>, p: Principal, n: nat)
    requires 0 < n <= |p.callers|
    requires forall q :: q in Group(rows) ==> q.username != p.username
    ensures Group(rows + PairsOf(p)[..n]) == Group(rows) + [Principal(p.username, p.callers[..n])]
  {
    var all, g := rows + PairsOf(p)[..n], Grant(p.username, p.callers[n - 1]);
    assert all[..|all| - 1] == rows + PairsOf(p)[..n - 1] && all[|all| - 1] == g;
    if n == 1 {
      assert rows + PairsOf(p)[..0] == rows;
      assert p.callers[..1] == [p.callers[0]];
    } else {
      GroupAppend(rows, p, n - 1);
      AddToLast(Group(rows), p, n);
    }
  }

  lemma AddToLast(ps: seq<Principal>, p: Principal, n: nat)
    requires 1 < n <= |p.callers|
    ensures AddRow(ps + [Principal(p.username, p.callers[..n - 1])], Grant(p.username, p.callers[n - 1]))
         == ps + [Principal(p.username, p.callers[..n])]
  {
    assert p.callers[..n] == p.callers[..n - 1] + [p.callers[n - 1]];
  }

  /** A payload is authentic when it is what the control plane makes of some set of rows. */
  ghost predicate Authentic(p: Payload) {
    && Ascending(p.principals)
    && NonEmptyCallers(p.principals)
    && Sorted(Flatten(p.principals))
    && p.hash == HashOf(Flatten(p.principals))
  }
}
