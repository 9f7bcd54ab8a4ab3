/** internal/store/sqlite.go: ACL rows, and the policy version and hash kept with them. */
module PolicyStore {
  import opened Text
  import opened PolicyHash
  import opened Policy

  datatype AclRow = AclRow(id: string, caller: string, agent: string, username: string)
  datatype VersionRow = VersionRow(version: nat, hash: Hash)
  datatype Tables = Tables(agents: set<string>, acl: seq<AclRow>, versions: map<string, VersionRow>)

  datatype StoreError = NotFound | Io
  datatype Result<+T> = Ok(value: T) | Err(error: StoreError)

  /** Where a statement of a transaction may fail for reasons outside the model. */
  datatype Fault = NoFault | StatementFails | BumpFails | CommitFails | ReadBackFails

  // ---------- queries ----------

  function GrantOf(r: AclRow, agent: string): seq<Grant> {
    if r.agent == agent then [Grant(r.username, r.caller)] else []
  }

  /** The rows of one agent, in table order. */
  function GrantsOf(acl: seq<AclRow>, agent: string): seq<Grant> {
    if acl == [] then []
    else
      GrantsOf(acl[..|acl| - 1], agent) + GrantOf(acl[|acl| - 1], agent)
  }

  /** SELECT username, caller_token_id ... WHERE agent_id = ? ORDER BY username, caller_token_id */
  function OrderedRows(acl: seq<AclRow>, agent: string): seq<Grant> { Sort(GrantsOf(acl, agent)) }

  function Version(t: Tables, agent: string): nat {
    if agent in t.versions then t.versions[agent].version else 0
  }

  function StoredHash(t: Tables, agent: string): Hash {
    if agent in t.versions then t.versions[agent].hash else NoHash
  }

  predicate SameTriple(r: AclRow, caller: string, agent: string, username: string) {
    r.caller == caller && r.agent == agent && r.username == username
  }

  function FindTriple(acl: seq<AclRow>, caller: string, agent: string, username: string): (k: Option<nat>)
    ensures k.Some? ==> k.value < |acl| && SameTriple(acl[k.value], caller, agent, username)
    ensures k.None? ==> forall r :: r in acl ==> !SameTriple(r, caller, agent, username)
  {
    if acl == [] then None
    else if SameTriple(acl[|acl| - 1], caller, agent, username) then Some(|acl| - 1)
    else FindTriple(acl[..|acl| - 1], caller, agent, username)
  }

  function FindId(acl: seq<AclRow>, id: string): (k: Option<nat>)
    ensures k.Some? ==> k.value < |acl| && acl[k.value].id == id
    ensures k.None? ==> forall r :: r in acl ==> r.id != id
  {
    if acl == [] then None
    else if acl[|acl| - 1].id == id then Some(|acl| - 1)
    else FindId(acl[..|acl| - 1], id)
  }

  // ---------- what each transaction leaves ----------

  function Bumped(t: Tables, agent: string): Tables {
    t.(versions := t.versions[agent := VersionRow(Version(t, agent) + 1, HashOf(GrantsOf(t.acl, agent)))])
  }

  /** The transaction that inserts `row` reaches its commit. */
  predicate Inserts(t: Tables, row: AclRow, fault: Fault) {
    && fault != StatementFails && fault != BumpFails && fault != CommitFails
    && FindId(t.acl, row.id).None?
    && FindTriple(t.acl, row.caller, row.agent, row.username).None?
    && row.agent in t.agents
  }

  function Created(t: Tables, row: AclRow, fault: Fault): Tables {
    if Inserts(t, row, fault) then Bumped(t.(acl := t.acl + [row]), row.agent) else t
  }

  function Deleted(t: Tables, id: string, fault: Fault): Tables {
    var k := FindId(t.acl, id);
    if k.None? || fault == StatementFails || fault == BumpFails || fault == CommitFails
    then t
    else Bumped(t.(acl := t.acl[..k.value] + t.acl[k.value + 1..]), t.acl[k.value].agent)
  }

  /** One agent's version row is one higher than before, or the first; the others are as they were. */
  ghost predicate OneBump(t: Tables, t': Tables, agent: string) {
    && agent in t'.versions
    && t'.versions[agent].version == (if agent in t.versions then t.versions[agent].version else 0) + 1
    && t'.versions - {agent} == t.versions - {agent}
  }

  /** The agent is enrolled, and neither the id nor the triple is in the table yet. */
  ghost predicate Grantable(t: Tables, row: AclRow) {
    && row.agent in t.agents
    && forall x :: x in t.acl ==> x.id != row.id && !SameTriple(x, row.caller, row.agent, row.username)
  }

  /** The triple is in the table already. */
  ghost predicate Granted(t: Tables, row: AclRow) {
    exists x :: x in t.acl && SameTriple(x, row.caller, row.agent, row.username)
  }

  lemma CreatedEffect(t: Tables, row: AclRow, fault: Fault)
    requires Grantable(t, row) && (fault == NoFault || fault == ReadBackFails)
    ensures var t' := Created(t, row, fault);
            && (forall x :: x in t'.acl <==> x in t.acl || x == row)
            && OneBump(t, t', row.agent) && t'.agents == t.agents
  {
    assert Inserts(t, row, fault);
    BumpedOnce(t.(acl := t.acl + [row]), row.agent);
  }

  lemma BumpedOnce(t: Tables, agent: string)
    ensures OneBump(t, Bumped(t, agent), agent)
  {
  }

  function Cut(acl: seq<AclRow>, k: nat): seq<AclRow>
    requires k < |acl|
  {
    acl[..k] + acl[k + 1..]
  }

  lemma CutAt(acl: seq<AclRow>, k: nat, i: nat)
    requires k < |acl| && i < |acl| - 1
    ensures |Cut(acl, k)| == |acl| - 1 && Cut(acl, k)[i] == acl[if i < k then i else i + 1]
  {
  }

  /** The row is gone, and no other. */
  lemma CutRows(acl: seq<AclRow>, k: nat, x: AclRow)
    requires UniqueRows(acl) && k < |acl|
    ensures x in Cut(acl, k) <==> x in acl && x.id != acl[k].id
  {
    if x in acl && x.id != acl[k].id {
      var i :| 0 <= i < |acl| && acl[i] == x;
      CutAt(acl, k, if i < k then i else i - 1);
    }
    if x in Cut(acl, k) {
      var j :| 0 <= j < |Cut(acl, k)| && Cut(acl, k)[j] == x;
      CutAt(acl, k, j);
    }
  }

  /** Deleting the found row: it and no other is gone, and its agent's version is one higher. */
  lemma DeletedEffect(t: Tables, k: nat, id: string)
    requires FindId(t.acl, id) == Some(k)
    ensures var cut := t.(acl := t.acl[..k] + t.acl[k + 1..]);
            && OneBump(t, Bumped(cut, t.acl[k].agent), t.acl[k].agent)
            && (UniqueRows(t.acl) ==> forall x :: x in cut.acl <==> x in t.acl && x.id != id)
  {
    assert Cut(t.acl, k) == t.acl[..k] + t.acl[k + 1..];
    BumpedOnce(t.(acl := Cut(t.acl, k)), t.acl[k].agent);
    if UniqueRows(t.acl) {
      forall x ensures x in Cut(t.acl, k) <==> x in t.acl && x.id != id { CutRows(t.acl, k, x); }
    }
  }

  /** Enrolling an agent makes grants to it possible, whatever was in the table. */
  lemma EnrolledCanBeGranted(t: Tables, row: AclRow)
    requires forall x :: x in t.acl ==> x.id != row.id && !SameTriple(x, row.caller, row.agent, row.username)
    ensures row in Step(Step(t, Enroll(row.agent)), GrantAcl(row, NoFault)).acl
  {
    CreatedEffect(Step(t, Enroll(row.agent)), row, NoFault);
  }

  class Store {
    var db: Tables

    constructor (agents: set<string>)
      ensures db == Tables(agents, [], map[])
    {
      db := Tables(agents, [], map[]);
    }

    /** computePolicyHash: scan the ordered rows into grants, then hash them. */
    method ComputePolicyHash(tx: Tables, agent: string) returns (h: Hash)
      ensures h == HashOf(GrantsOf(tx.acl, agent))
    {
      var rows := OrderedRows(tx.acl, agent);
      var grants := [];
      for i := 0 to |rows|
        invariant grants == rows[..i]
      {
        grants := grants + [rows[i]];
      }
      assert rows[..|rows|] == rows;
      CanonicalIgnoresOrder(rows, GrantsOf(tx.acl, agent));
      h := ComputeHash(grants);
    }

    /** bumpPolicyVersionTx: upsert the version row, then refresh its hash, inside `tx`. */
    method BumpPolicyVersionTx(tx: Tables, agent: string) returns (out: Tables)
      ensures out == Bumped(tx, agent)
    {
      var row := if agent in tx.versions
                 then tx.versions[agent].(version := tx.versions[agent].version + 1)
                 else VersionRow(1, NoHash);
      out := tx.(versions := tx.versions[agent := row]);
      var h := ComputePolicyHash(out, agent);
      var full := VersionRow(row.version, h);
      UpdateTwice(tx.versions, agent, row, full);
      out := out.(versions := out.versions[agent := full]);
      assert full == VersionRow(Version(tx, agent) + 1, h);
    }

    method CreateACL(row: AclRow, fault: Fault) returns (r: Result<AclRow>)
      modifies this
      ensures db == Created(old(db), row, fault)
      ensures r.Ok? ==> r.value in db.acl && SameTriple(r.value, row.caller, row.agent, row.username)
      ensures r.Err? && db != old(db) ==> fault == ReadBackFails
      ensures fault == NoFault && Grantable(old(db), row) ==> r == Ok(row)
      ensures Grantable(old(db), row) && (fault == NoFault || fault == ReadBackFails) ==>
        (forall x :: x in db.acl <==> x in old(db).acl || x == row) && OneBump(old(db), db, row.agent)
      ensures !Grantable(old(db), row) || fault == StatementFails || fault == BumpFails || fault == CommitFails ==>
        db == old(db)
      ensures fault == NoFault && Granted(old(db), row) ==> r.Ok? && r.value in old(db).acl
    {
      if Grantable(db, row) && (fault == NoFault || fault == ReadBackFails) { CreatedEffect(db, row, fault); }
      var tx := db;
      if fault == StatementFails { return Err(Io); }
      if FindId(tx.acl, row.id).Some? || FindTriple(tx.acl, row.caller, row.agent, row.username).Some? {
        // Unique violation: roll back, then hand out the existing row.
        var k := FindTriple(db.acl, row.caller, row.agent, row.username);
        if k.None? { return Err(NotFound); }
        return Ok(db.acl[k.value]);
      }
      if row.agent !in tx.agents { return Err(Io); }
      tx := tx.(acl := tx.acl + [row]);
      if fault == BumpFails { return Err(Io); }
      tx := BumpPolicyVersionTx(tx, row.agent);
      if fault == CommitFails { return Err(Io); }
      db := tx;
      if fault == ReadBackFails { return Err(Io); }
      return Ok(row);
    }

    method DeleteACL(id: string, fault: Fault) returns (r: Result<()>)
      modifies this
      ensures db == Deleted(old(db), id, fault)
      ensures r.Ok? ==> exists row :: row in old(db).acl && row.id == id
      ensures r == Err(NotFound) ==> forall row :: row in old(db).acl ==> row.id != id
      ensures r.Err? ==> db == old(db)
      ensures fault == NoFault && (exists row :: row in old(db).acl && row.id == id) ==> r.Ok?
      ensures r.Ok? && UniqueRows(old(db).acl) ==> forall x :: x in db.acl <==> x in old(db).acl && x.id != id
      ensures r.Ok? ==> exists row :: row in old(db).acl && row.id == id && OneBump(old(db), db, row.agent)
    {
      var tx := db;
      if fault == StatementFails { return Err(Io); }
      var k := FindId(tx.acl, id);
      if k.None? { return Err(NotFound); }
      assert tx.acl[k.value] in old(db).acl;
      DeletedEffect(tx, k.value, id);
      var agent := tx.acl[k.value].agent;
      tx := tx.(acl := tx.acl[..k.value] + tx.acl[k.value + 1..]);
      if fault == BumpFails { return Err(Io); }
      tx := BumpPolicyVersionTx(tx, agent);
      if fault == CommitFails { return Err(Io); }
      db := tx;
      return Ok(());
    }

    /** GetPolicySnapshot: version, hash and ordered rows in one read transaction. */
    method GetPolicySnapshot(agent: string) returns (p: Payload)
      ensures p == SnapshotOf(db, agent)
      ensures agent in db.versions ==> p.version == db.versions[agent].version && p.hash == db.versions[agent].hash
      ensures agent !in db.versions ==> p.version == 0 && p.hash == NoHash
    {
      var rows := OrderedRows(db.acl, agent);
      SortSorts(GrantsOf(db.acl, agent));
      var principals := GroupScan(rows);
      p := Payload(Version(db, agent), StoredHash(db, agent), principals);
    }
  }

  lemma UpdateTwice(m: map<string, VersionRow>, k: string, v: VersionRow, w: VersionRow)
    ensures m[k := v][k := w] == m[k := w]
  {
  }

  /** The row scan of GetPolicySnapshot: a map from username to callers, and the order of first sight. */
  method GroupScan(rows: seq<Grant>) returns (principals: seq<Principal>)
    requires Sorted(rows)
    ensures principals == Group(rows)
  {
    var byUser: map<string, seq<string>> := map[];
    var order: seq<string> := [];
    for i := 0 to |rows|
      invariant Scanned(Group(rows[..i]), order, byUser)
    {
      var u, c := rows[i].username, rows[i].caller;
      GroupPrefix(rows, i);
      if u !in byUser {
        ScanNew(Group(rows[..i]), rows[i], order, byUser);
        order := order + [u];
        byUser := byUser[u := [c]];
      } else {
        ScanSeen(Group(rows[..i]), rows[i], order, byUser);
        byUser := byUser[u := byUser[u] + [c]];
      }
    }
    assert rows[..|rows|] == rows;
    principals := InOrder(order, byUser, Group(rows));
  }

  /** The second loop of GetPolicySnapshot: one principal per username, in first-sight order. */
  method InOrder(order: seq<string>, byUser: map<string, seq<string>>, ghost ps: seq<Principal>)
    returns (principals: seq<Principal>)
    requires Scanned(ps, order, byUser)
    ensures principals == ps
  {
    principals := [];
    for k := 0 to |order|
      invariant principals == ps[..k]
    {
      principals := principals + [Principal(order[k], byUser[order[k]])];
    }
  }

  function SnapshotOf(t: Tables, agent: string): Payload {
    Payload(Version(t, agent), StoredHash(t, agent), Group(OrderedRows(t.acl, agent)))
  }

  /** The map and the order list hold exactly the groups seen so far. */
  ghost predicate Scanned(ps: seq<Principal>, order: seq<string>, byUser: map<string, seq<string>>) {
    && |order| == |ps|
    && (forall k :: 0 <= k < |ps| ==>
          order[k] == ps[k].username && order[k] in byUser && byUser[order[k]] == ps[k].callers)
    && (forall u :: u in byUser ==> u in order)
  }

  lemma GroupPrefix(rows: seq<Grant>, i: nat)
    requires Sorted(rows) && i < |rows|
    ensures var ps := Group(rows[..i]);
            && Group(rows[..i + 1]) == AddRow(ps, rows[i])
            && Ascending(ps)
            && (ps != [] ==> StrLe(ps[|ps| - 1].username, rows[i].username))
  {
    assert rows[..i + 1][..i] == rows[..i];
    GroupShape(rows[..i]);
    if i > 0 {
      GroupLast(rows[..i]);
      assert GrantLe(rows[i - 1], rows[i]);
      StrLeRefl(rows[i].username);
    }
  }

  /** A username seen before is the one of the last group, so its list is the one extended. */
  lemma ScanSeen(ps: seq<Principal>, g: Grant, order: seq<string>, byUser: map<string, seq<string>>)
    requires Ascending(ps) && (ps != [] ==> StrLe(ps[|ps| - 1].username, g.username))
    requires Scanned(ps, order, byUser) && g.username in byUser
    ensures Scanned(AddRow(ps, g), order, byUser[g.username := byUser[g.username] + [g.caller]])
  {
    var k :| 0 <= k < |order| && order[k] == g.username;
    SeenOnlyLast(ps, g.username);
  }

  lemma ScanNew(ps: seq<Principal>, g: Grant, order: seq<string>, byUser: map<string, seq<string>>)
    requires Scanned(ps, order, byUser) && g.username !in byUser
    ensures Scanned(AddRow(ps, g), order + [g.username], byUser[g.username := [g.caller]])
  {
    assert forall k :: 0 <= k < |ps| ==> order[k] in byUser;
  }

  lemma SeenOnlyLast(ps: seq<Principal>, u: string)
    requires Ascending(ps) && ps != [] && StrLe(ps[|ps| - 1].username, u)
    ensures forall k :: 0 <= k < |ps| && ps[k].username == u ==> k == |ps| - 1
  {
    forall k | 0 <= k < |ps| - 1 ensures ps[k].username != u {
      if ps[k].username == u { StrLeAntisym(u, ps[|ps| - 1].username); }
    }
  }

  // ---------- every reachable state ----------

  predicate UniqueRows(acl: seq<AclRow>) {
    forall i, j :: 0 <= i < j < |acl| ==>
      acl[i].id != acl[j].id && !SameTriple(acl[i], acl[j].caller, acl[j].agent, acl[j].username)
  }

  ghost predicate Inv(t: Tables) {
    && UniqueRows(t.acl)
    && (forall r :: r in t.acl ==> r.agent in t.agents)
    && (forall a: string :: StoredHash(t, a) == HashOf(GrantsOf(t.acl, a)))
  }

  datatype Op =
    | Enroll(agent: string)
    | GrantAcl(row: AclRow, fault: Fault)
    | RevokeAcl(id: string, fault: Fault)

  function Step(t: Tables, op: Op): Tables {
    match op
    case Enroll(a) => t.(agents := t.agents + {a})
    case GrantAcl(row, f) => Created(t, row, f)
    case RevokeAcl(id, f) => Deleted(t, id, f)
  }

  function Run(t: Tables, ops: seq<Op>): Tables
    decreases |ops|
  {
    if ops == [] then t else Run(Step(t, ops[0]), ops[1..])
  }

  /** How many operations of the run changed the agent's rows. */
  function RowChanges(t: Tables, ops: seq<Op>, agent: string): nat
    decreases |ops|
  {
    if ops == [] then 0
    else
      var t' := Step(t, ops[0]);
      (if GrantsOf(t'.acl, agent) != GrantsOf(t.acl, agent) then 1 else 0) + RowChanges(t', ops[1..], agent)
  }

  lemma {:induction false} GrantsOfConcat(a: seq<AclRow>, b: seq<AclRow>, agent: string)
    ensures GrantsOf(a + b, agent) == GrantsOf(a, agent) + GrantsOf(b, agent)
  {
    if b == [] {
      assert a + b == a;
    } else {
      var init := b[..|b| - 1];
      GrantsOfConcat(a, init, agent);
      assert (a + b)[..|a + b| - 1] == a + init;
      Assoc(GrantsOf(a, agent), GrantsOf(init, agent), GrantOf(b[|b| - 1], agent));
    }
  }

  lemma Assoc(a: seq<Grant>, b: seq<Grant>, c: seq<Grant>)
    ensures (a + b) + c == a + (b + c)
  {
  }

  lemma GrantsOfSplit(acl: seq<AclRow>, k: nat, agent: string)
    requires k < |acl|
    ensures GrantsOf(acl, agent)
         == GrantsOf(acl[..k], agent) + GrantOf(acl[k], agent) + GrantsOf(acl[k + 1..], agent)
  {
    assert acl[..k + 1][..k] == acl[..k];
    assert acl == acl[..k + 1] + acl[k + 1..];
    GrantsOfConcat(acl[..k + 1], acl[k + 1..], agent);
  }

  /** Dropping one row drops exactly its grant from its agent and nothing from the others. */
  lemma GrantsOfRemoved(acl: seq<AclRow>, k: nat, agent: string)
    requires k < |acl|
    ensures var cut := GrantsOf(acl[..k] + acl[k + 1..], agent);
            |cut| + |GrantOf(acl[k], agent)| == |GrantsOf(acl, agent)|
            && (acl[k].agent != agent ==> cut == GrantsOf(acl, agent))
  {
    GrantsOfSplit(acl, k, agent);
    GrantsOfConcat(acl[..k], acl[k + 1..], agent);
  }

  lemma GrantsOfAdded(acl: seq<AclRow>, row: AclRow, agent: string)
    ensures GrantsOf(acl + [row], agent)
         == GrantsOf(acl, agent) + GrantOf(row, agent)
  {
    assert (acl + [row])[..|acl|] == acl;
  }

  /** One step: each stored hash still is the hash of the agent's rows. */
  lemma StepHash(t: Tables, op: Op, a: string)
    requires StoredHash(t, a) == HashOf(GrantsOf(t.acl, a))
    ensures StoredHash(Step(t, op), a) == HashOf(GrantsOf(Step(t, op).acl, a))
  {
    StepGrants(t, op, a);
  }

  lemma StepEnrolled(t: Tables, op: Op)
    requires forall r :: r in t.acl ==> r.agent in t.agents
    ensures forall r :: r in Step(t, op).acl ==> r.agent in Step(t, op).agents
  {
  }

  lemma StepInv(t: Tables, op: Op)
    requires Inv(t)
    ensures Inv(Step(t, op))
  {
    forall a ensures StoredHash(Step(t, op), a) == HashOf(GrantsOf(Step(t, op).acl, a)) { StepHash(t, op, a); }
    StepUnique(t, op);
    StepEnrolled(t, op);
  }

  lemma StepUnique(t: Tables, op: Op)
    requires UniqueRows(t.acl)
    ensures UniqueRows(Step(t, op).acl)
  {
    match op
    case Enroll(_) =>
    case GrantAcl(row, f) =>
      if Inserts(t, row, f) { AddedUnique(t.acl, row); }
    case RevokeAcl(id, f) =>
      var k := FindId(t.acl, id);
      if k.Some? { CutUnique(t.acl, k.value); }
  }

  lemma AddedUnique(acl: seq<AclRow>, row: AclRow)
    requires UniqueRows(acl) && FindId(acl, row.id).None?
    requires FindTriple(acl, row.caller, row.agent, row.username).None?
    ensures UniqueRows(acl + [row])
  {
    forall i | 0 <= i < |acl|
      ensures acl[i].id != row.id && !SameTriple(acl[i], row.caller, row.agent, row.username)
    {
      assert acl[i] in acl;
    }
  }

  lemma CutUnique(acl: seq<AclRow>, k: nat)
    requires UniqueRows(acl) && k < |acl|
    ensures UniqueRows(acl[..k] + acl[k + 1..])
  {
    var cut := acl[..k] + acl[k + 1..];
    forall i | 0 <= i < |cut| ensures cut[i] == acl[if i < k then i else i + 1] { }
  }

  /** One step: the version moves by one exactly when the agent's rows changed. */
  ghost predicate Tracked(t: Tables, t': Tables, a: string) {
    if GrantsOf(t'.acl, a) == GrantsOf(t.acl, a)
    then Version(t', a) == Version(t, a) && StoredHash(t', a) == StoredHash(t, a)
    else Version(t', a) == Version(t, a) + 1 && StoredHash(t', a) == HashOf(GrantsOf(t'.acl, a))
  }

  lemma StepGrants(t: Tables, op: Op, a: string)
    ensures Tracked(t, Step(t, op), a)
  {
    match op
    case Enroll(_) =>
    case GrantAcl(row, f) => CreatedTracked(t, row, f, a);
    case RevokeAcl(id, f) => DeletedTracked(t, id, f, a);
  }

  lemma CreatedTracked(t: Tables, row: AclRow, f: Fault, a: string)
    ensures Tracked(t, Created(t, row, f), a)
  {
    if Inserts(t, row, f) {
      GrantsOfAdded(t.acl, row, a);
      BumpTracked(t, t.acl + [row], row.agent, a);
    }
  }

  lemma DeletedTracked(t: Tables, id: string, f: Fault, a: string)
    ensures Tracked(t, Deleted(t, id, f), a)
  {
    var k := FindId(t.acl, id);
    if k.Some? {
      GrantsOfRemoved(t.acl, k.value, a);
      BumpTracked(t, t.acl[..k.value] + t.acl[k.value + 1..], t.acl[k.value].agent, a);
    }
  }

  lemma BumpTracked(t: Tables, acl: seq<AclRow>, agent: string, a: string)
    requires if a == agent then |GrantsOf(acl, a)| != |GrantsOf(t.acl, a)| else GrantsOf(acl, a) == GrantsOf(t.acl, a)
    ensures Tracked(t, Bumped(t.(acl := acl), agent), a)
  {
  }

  /** In every reachable state each stored hash is the hash of the current rows,
      and each version counts exactly the committed changes of those rows. */
  lemma {:induction false} EveryRunKeepsHashAndVersion(t: Tables, ops: seq<Op>, a: string)
    requires Inv(t)
    ensures Inv(Run(t, ops))
    ensures Version(Run(t, ops), a) == Version(t, a) + RowChanges(t, ops, a)
    decreases |ops|
  {
    if ops != [] {
      StepInv(t, ops[0]);
      StepGrants(t, ops[0], a);
      EveryRunKeepsHashAndVersion(Step(t, ops[0]), ops[1..], a);
    }
  }

  lemma EmptyStoreInv()
    ensures Inv(Tables({}, [], map[]))
  {
    forall a: string ensures StoredHash(Tables({}, [], map[]), a) == HashOf(GrantsOf([], a)) {
      HashEmptyIff(GrantsOf([], a));
    }
  }

  /** The snapshot an agent is sent: ascending usernames, no empty group, the hash of its
      own groups, and flattening back to exactly the agent's rows. */
  lemma SnapshotIsAuthentic(t: Tables, agent: string)
    requires Inv(t)
    ensures Authentic(SnapshotOf(t, agent))
    ensures Flatten(SnapshotOf(t, agent).principals) == OrderedRows(t.acl, agent)
    ensures multiset(Flatten(SnapshotOf(t, agent).principals)) == multiset(GrantsOf(t.acl, agent))
  {
    var rows := OrderedRows(t.acl, agent);
    SortSorts(GrantsOf(t.acl, agent));
    GroupShape(rows);
    FlattenGroup(rows);
    CanonicalIgnoresOrder(rows, GrantsOf(t.acl, agent));
  }

  /** Membership in the rows is membership in the table. */
  lemma {:induction false} GrantsOfMembership(acl: seq<AclRow>, agent: string, g: Grant)
    ensures g in GrantsOf(acl, agent) <==>
            exists i :: 0 <= i < |acl| && SameTriple(acl[i], g.caller, agent, g.username)
  {
    if acl != [] {
      var init, last := acl[..|acl| - 1], acl[|acl| - 1];
      GrantsOfMembership(init, agent, g);
      assert forall i :: 0 <= i < |init| ==> init[i] == acl[i];
      assert g in GrantOf(last, agent) <==> SameTriple(last, g.caller, agent, g.username);
      if i :| 0 <= i < |acl| && SameTriple(acl[i], g.caller, agent, g.username) && i < |init| {
        assert SameTriple(init[i], g.caller, agent, g.username);
      }
    }
  }
}
