/** Agent revocation against requests already under way: the ordered checks of
    internal/server/middleware_auth.go, RevokeAgent and UpdateAgentHeartbeat of
    internal/store/sqlite.go, and enrollment and heartbeat of internal/server/handlers_agent.go. */
module Revocation {
  import opened Text

  type AgentId = string
  type TokenId = string

  datatype AgentStatus = Online | Revoked
  datatype Kind = CallerToken | JoinToken | AgentToken

  /** A row of tokens; `secret` stands for what its stored hash verifies. */
  datatype TokenRow = TokenRow(
    kind: Kind,
    agent: Option<AgentId>,
    secret: string,
    expires: Option<int>,
    used: bool,
    revoked: bool)

  /** The Authorization header. */
  datatype Bearer = Missing | Malformed | Parsed(id: TokenId, kind: Kind, secret: string)

  datatype Verdict = Unauthorized401 | Gone410 | Pass(agent: Option<AgentId>)

  /** requireAuth on the two rows it read. */
  function RequireAuth(b: Bearer, required: Kind, row: Option<TokenRow>, agent: Option<AgentStatus>, now: int): Verdict
  {
    if !b.Parsed? || row.None? then Unauthorized401
    else
      var t := row.value;
      if b.kind != t.kind || t.kind != required then Unauthorized401
      else if t.kind.AgentToken? && (t.agent.None? || agent.None?) then Unauthorized401
      else if t.kind.AgentToken? && agent.value.Revoked? then Gone410
      else if t.revoked then Unauthorized401
      else if t.expires.Some? && t.expires.value < now then Unauthorized401
      else if t.kind.JoinToken? && t.used then Unauthorized401
      else if b.secret != t.secret then Unauthorized401
      else Pass(t.agent)
  }

  /** Which answer, whatever the order of the checks: a request passes exactly when nothing speaks
      against it, and among the rest 410 goes exactly to well-linked agent tokens of a revoked agent. */
  lemma AuthAnswersIff(b: Bearer, required: Kind, row: Option<TokenRow>, agent: Option<AgentStatus>, now: int)
    ensures var v := RequireAuth(b, required, row, agent, now);
            var known := b.Parsed? && row.Some? && b.kind == row.value.kind == required;
            && (v.Pass? <==>
                  && known && b.secret == row.value.secret
                  && !row.value.revoked && !(row.value.expires.Some? && row.value.expires.value < now)
                  && (required == JoinToken ==> !row.value.used)
                  && (required == AgentToken ==> row.value.agent.Some? && agent == Some(Online)))
            && (v.Gone410? <==> known && required == AgentToken && row.value.agent.Some? && agent == Some(Revoked))
            && (v.Pass? ==> v.agent == row.value.agent)
  {
  }

  // ---------- the interleaved machine ----------

  /** A request: arrived, token row read, agent row read too, decided. */
  datatype Phase =
    | Arrived
    | ReadRow(row: Option<TokenRow>)
    | ReadBoth(row: Option<TokenRow>, status: Option<AgentStatus>)
    | Done(v: Verdict)

  /** `late` holds the agents whose revocation had committed when the request arrived. */
  datatype Request = Request(bearer: Bearer, required: Kind, late: set<AgentId>, phase: Phase)

  datatype State = State(
    agents: map<AgentId, AgentStatus>,
    tokens: map<TokenId, TokenRow>,
    enrolling: set<AgentId>,            // agent row created, its one token not yet
    revoked: set<AgentId>,              // RevokeAgent has committed
    revived: set<AgentId>,              // a heartbeat wrote the row since the last RevokeAgent
    requests: map<nat, Request>)

  datatype Event =
    | CreateAgent(a: AgentId)
    | CreateAgentToken(a: AgentId, id: TokenId, secret: string)
    | CreateOtherToken(id: TokenId, row: TokenRow)
    | RevokeAgent(a: AgentId)
    | RevokeToken(id: TokenId)
    | MarkJoinTokenUsed(id: TokenId)
    | Arrive(r: nat, bearer: Bearer, required: Kind)
    | ReadToken(r: nat)
    | ReadAgent(r: nat)
    | Decide(r: nat, now: int)
    | WriteHeartbeat(r: nat)

  /** UPDATE tokens SET revoked_at WHERE agent_id = a AND kind = 'agent'. */
  function RevokeRow(row: TokenRow, a: AgentId): TokenRow {
    if row.kind.AgentToken? && row.agent == Some(a) then row.(revoked := true) else row
  }

  function RevokeRows(tokens: map<TokenId, TokenRow>, a: AgentId): map<TokenId, TokenRow> {
    map id | id in tokens :: RevokeRow(tokens[id], a)
  }

  function At(s: State, r: nat, ph: Phase): State
    requires r in s.requests
  {
    s.(requests := s.requests[r := s.requests[r].(phase := ph)])
  }

  function Lookup(s: State, b: Bearer): Option<TokenRow> {
    if b.Parsed? && b.id in s.tokens then Some(s.tokens[b.id]) else None
  }

  /** The bearer's token is one of agent a. */
  predicate Speaks(s: State, b: Bearer, a: AgentId) {
    Lookup(s, b).Some? && Lookup(s, b).value.agent == Some(a)
  }

  function StatusOf(s: State, row: Option<TokenRow>): Option<AgentStatus> {
    if row.Some? && row.value.agent.Some? && row.value.agent.value in s.agents
    then Some(s.agents[row.value.agent.value]) else None
  }

  function Next(s: State, e: Event): State {
    match e
    case CreateAgent(a) =>
      if a in s.agents then s else s.(agents := s.agents[a := Online], enrolling := s.enrolling + {a})
    case CreateAgentToken(a, id, secret) =>
      if a !in s.enrolling || id in s.tokens then s
      else s.(enrolling := s.enrolling - {a},
              tokens := s.tokens[id := TokenRow(AgentToken, Some(a), secret, None, false, false)])
    case CreateOtherToken(id, row) =>
      if id in s.tokens || row.kind.AgentToken? || row.agent.Some? then s else s.(tokens := s.tokens[id := row])
    case RevokeAgent(a) =>
      if a !in s.agents then s
      else s.(agents := s.agents[a := Revoked], tokens := RevokeRows(s.tokens, a), revoked := s.revoked + {a},
              revived := s.revived - {a})
    case RevokeToken(id) =>
      if id in s.tokens then s.(tokens := s.tokens[id := s.tokens[id].(revoked := true)]) else s
    case MarkJoinTokenUsed(id) =>
      if id in s.tokens && s.tokens[id].kind.JoinToken? && !s.tokens[id].revoked
      then s.(tokens := s.tokens[id := s.tokens[id].(used := true)]) else s
    case Arrive(r, bearer, required) =>
      if r in s.requests then s else s.(requests := s.requests[r := Request(bearer, required, s.revoked, Arrived)])
    case ReadToken(r) =>
      if r in s.requests && s.requests[r].phase.Arrived?
      then At(s, r, ReadRow(Lookup(s, s.requests[r].bearer))) else s
    case ReadAgent(r) =>
      if r in s.requests && s.requests[r].phase.ReadRow?
      then At(s, r, ReadBoth(s.requests[r].phase.row, StatusOf(s, s.requests[r].phase.row))) else s
    case Decide(r, now) =>
      if r in s.requests && s.requests[r].phase.ReadBoth?
      then
        var q := s.requests[r];
        At(s, r, Done(RequireAuth(q.bearer, q.required, q.phase.row, q.phase.status, now)))
      else s
    case WriteHeartbeat(r) =>
      if r !in s.requests || !s.requests[r].required.AgentToken? then s
      else
        var a := Passed(s.requests[r]);
        if a.None? || a.value !in s.agents then s
        else s.(agents := s.agents[a.value := Online], revived := s.revived + {a.value})
  }

  /** The agent an authenticated request speaks for. */
  function Passed(q: Request): Option<AgentId> {
    if q.phase.Done? && q.phase.v.Pass? then q.phase.v.agent else None
  }

  function Run(s: State, es: seq<Event>): State
    decreases |es|
  {
    if es == [] then s else Run(Next(s, es[0]), es[1..])
  }

  const FRESH: State := State(map[], map[], {}, {}, {}, map[])

  // ---------- invariants ----------

  predicate SameAgent(row: TokenRow, row': TokenRow) { row.agent.Some? && row.agent == row'.agent }

  /** Only enrollment links a token to an agent, and only once. */
  ghost predicate OneToken(s: State) {
    && (forall id, id' :: id in s.tokens && id' in s.tokens && SameAgent(s.tokens[id], s.tokens[id']) ==> id == id')
    && (forall id :: id in s.tokens && s.tokens[id].agent.Some? ==>
          && s.tokens[id].kind.AgentToken?
          && s.tokens[id].agent.value in s.agents && s.tokens[id].agent.value !in s.enrolling)
    && s.enrolling <= s.agents.Keys && s.revoked <= s.agents.Keys
  }

  /** A row that was read is the token's row, up to marks set since. */
  predicate RowOf(s: State, b: Bearer, row: Option<TokenRow>) {
    row.Some? ==>
      && b.Parsed? && b.id in s.tokens
      && s.tokens[b.id].agent == row.value.agent && s.tokens[b.id].kind == row.value.kind
      && (row.value.revoked ==> s.tokens[b.id].revoked)
  }

  predicate RequestOk(s: State, q: Request) {
    && q.late <= s.revoked
    && match q.phase
       case Arrived => true
       case ReadRow(row) => RowOf(s, q.bearer, row)
       case ReadBoth(row, st) => RowOf(s, q.bearer, row)
       case Done(v) => v.Pass? ==> q.bearer.Parsed? && q.bearer.id in s.tokens && s.tokens[q.bearer.id].agent == v.agent
  }

  ghost predicate RequestsOk(s: State) {
    forall r :: r in s.requests ==> RequestOk(s, s.requests[r])
  }

  /** No request speaks, or will speak, for agent a: every one that read a's token saw it revoked. */
  predicate Shut(q: Request, a: AgentId) {
    match q.phase
    case Arrived => true
    case ReadRow(row) => true
    case ReadBoth(row, st) => row.Some? && row.value.agent == Some(a) ==> st == Some(Revoked)
    case Done(v) => v.Pass? ==> v.agent != Some(a)
  }

  ghost predicate Sealed(s: State, a: AgentId) {
    a in s.agents && s.agents[a] == Revoked && forall r :: r in s.requests ==> Shut(s.requests[r], a)
  }

  predicate TokenDead(s: State, a: AgentId) {
    exists id :: id in s.tokens && s.tokens[id].agent == Some(a) && s.tokens[id].revoked
  }

  /** After RevokeAgent: the agent's token carries the revocation, or, when the token came later,
      the agent row still does and nobody can overwrite it. */
  ghost predicate Closed(s: State) {
    forall a :: a in s.revoked ==> TokenDead(s, a) || Sealed(s, a)
  }

  /** What a request that arrived after the revocation can have in hand. */
  ghost predicate LateOk(s: State, q: Request, a: AgentId) {
    match q.phase
    case Arrived => true
    case ReadRow(row) => row.Some? && row.value.agent == Some(a) ==> row.value.revoked || Sealed(s, a)
    case ReadBoth(row, st) => row.Some? && row.value.agent == Some(a) ==> row.value.revoked || st == Some(Revoked)
    case Done(v) => v.Pass? ==> v.agent != Some(a)
  }

  ghost predicate LatesOk(s: State) {
    forall r, a :: r in s.requests && a in s.requests[r].late ==> LateOk(s, s.requests[r], a)
  }

  ghost predicate Inv(s: State) {
    OneToken(s) && RequestsOk(s) && Closed(s) && LatesOk(s)
  }

  // ---------- every step keeps them ----------

  lemma OneTokenStep(s: State, e: Event)
    requires OneToken(s)
    ensures OneToken(Next(s, e))
  {
  }

  /** Token rows only gain marks. */
  lemma TokensGrow(s: State, e: Event, id: TokenId)
    requires id in s.tokens
    ensures var t := Next(s, e);
            && id in t.tokens && t.tokens[id].agent == s.tokens[id].agent && t.tokens[id].kind == s.tokens[id].kind
            && (s.tokens[id].revoked ==> t.tokens[id].revoked)
  {
  }

  lemma RequestStep(s: State, e: Event, r: nat)
    requires RequestsOk(s) && r in Next(s, e).requests
    ensures RequestOk(Next(s, e), Next(s, e).requests[r])
  {
    var q := Next(s, e).requests[r];
    if q.bearer.Parsed? && q.bearer.id in s.tokens { TokensGrow(s, e, q.bearer.id); }
    if r in s.requests { assert RequestOk(s, s.requests[r]); }
  }

  /** Who reads or decides for an agent whose row says revoked is refused. */
  lemma ShutStep(s: State, e: Event, a: AgentId, r: nat)
    requires OneToken(s) && RequestsOk(s) && Sealed(s, a) && r in Next(s, e).requests
    ensures Shut(Next(s, e).requests[r], a)
  {
    if r in s.requests { assert RequestOk(s, s.requests[r]) && Shut(s.requests[r], a); }
  }

  lemma SealedStep(s: State, e: Event, a: AgentId)
    requires OneToken(s) && RequestsOk(s) && Sealed(s, a)
    ensures Sealed(Next(s, e), a)
  {
    var t := Next(s, e);
    forall r | r in t.requests ensures Shut(t.requests[r], a) { ShutStep(s, e, a, r); }
    if e.WriteHeartbeat? && e.r in s.requests { assert Shut(s.requests[e.r], a); }
  }

  lemma DeadStep(s: State, e: Event, a: AgentId)
    requires TokenDead(s, a)
    ensures TokenDead(Next(s, e), a)
  {
    var id :| id in s.tokens && s.tokens[id].agent == Some(a) && s.tokens[id].revoked;
    TokensGrow(s, e, id);
  }

  /** The revocation itself: an existing token is revoked; otherwise nobody ever saw one. */
  lemma RevokeCloses(s: State, a: AgentId)
    requires OneToken(s) && RequestsOk(s) && a in s.agents
    ensures var t := Next(s, RevokeAgent(a)); TokenDead(t, a) || Sealed(t, a)
  {
    var t := Next(s, RevokeAgent(a));
    if id :| id in s.tokens && s.tokens[id].agent == Some(a) {
      assert t.tokens[id] == RevokeRow(s.tokens[id], a);
    } else {
      forall r | r in t.requests ensures Shut(t.requests[r], a) { assert RequestOk(s, s.requests[r]); }
    }
  }

  lemma ClosedStep(s: State, e: Event)
    requires Inv(s)
    ensures Closed(Next(s, e))
  {
    var t := Next(s, e);
    forall a | a in t.revoked ensures TokenDead(t, a) || Sealed(t, a) {
      if a !in s.revoked { RevokeCloses(s, a); }
      else if TokenDead(s, a) { DeadStep(s, e, a); }
      else { SealedStep(s, e, a); }
    }
  }

  /** A token row read after the revocation shows it, unless the agent row does for good. */
  lemma LateRead(s: State, b: Bearer, a: AgentId)
    requires OneToken(s) && Closed(s) && a in s.revoked
    ensures var row := Lookup(s, b); row.Some? && row.value.agent == Some(a) ==> row.value.revoked || Sealed(s, a)
  {
    var row := Lookup(s, b);
    if row.Some? && row.value.agent == Some(a) && TokenDead(s, a) {
      var id :| id in s.tokens && s.tokens[id].agent == Some(a) && s.tokens[id].revoked;
      assert id == b.id;
    }
  }

  lemma LateStep(s: State, e: Event, r: nat, a: AgentId)
    requires Inv(s) && r in Next(s, e).requests && a in Next(s, e).requests[r].late
    ensures LateOk(Next(s, e), Next(s, e).requests[r], a)
  {
    var t := Next(s, e);
    if r in s.requests {
      var q := s.requests[r];
      assert RequestOk(s, q) && LateOk(s, q, a);
      if Sealed(s, a) { SealedStep(s, e, a); }
      if e.ReadToken? && e.r == r { LateRead(s, q.bearer, a); }
    }
  }

  lemma {:induction false} RunInv(s: State, es: seq<Event>)
    requires Inv(s)
    ensures Inv(Run(s, es))
    decreases |es|
  {
    if es != [] {
      var e := es[0];
      var t := Next(s, e);
      OneTokenStep(s, e);
      ClosedStep(s, e);
      forall r | r in t.requests ensures RequestOk(t, t.requests[r]) { RequestStep(s, e, r); }
      forall r, a | r in t.requests && a in t.requests[r].late ensures LateOk(t, t.requests[r], a) {
        LateStep(s, e, r, a);
      }
      RunInv(t, es[1..]);
    }
  }

  /** In every interleaving: once RevokeAgent has committed, every request that arrives later with a
      token of that agent and gets an answer gets 401 or 410, whatever heartbeats authenticated
      earlier still write, and even when enrollment creates the token after the revocation. */
  lemma RevokedAgentIsRefused(es: seq<Event>, r: nat)
    requires r in Run(FRESH, es).requests
    ensures var s := Run(FRESH, es);
            var q := s.requests[r];
            forall a :: a in q.late && Speaks(s, q.bearer, a) && q.phase.Done? ==>
              q.phase.v == Unauthorized401 || q.phase.v == Gone410
  {
    RunInv(FRESH, es);
    var s := Run(FRESH, es);
    var q := s.requests[r];
    assert RequestOk(s, q);
    forall a | a in q.late && Speaks(s, q.bearer, a) && q.phase.Done?
      ensures !q.phase.v.Pass?
    {
      assert LateOk(s, q, a);
    }
  }

  /** `late` is exactly the set of agents revoked when the request arrived: it is fixed there. */
  lemma {:induction false} LateIsFixedAtArrival(s: State, es: seq<Event>, r: nat)
    requires r in s.requests
    ensures r in Run(s, es).requests
    ensures Run(s, es).requests[r].late == s.requests[r].late && Run(s, es).requests[r].bearer == s.requests[r].bearer
    decreases |es|
  {
    if es != [] { LateIsFixedAtArrival(Next(s, es[0]), es[1..], r); }
  }

  // ---------- which of the two answers ----------

  /** The row of a revoked agent says so exactly until a heartbeat writes it. */
  ghost predicate RowTells(s: State) {
    forall a :: a in s.revoked ==> a in s.agents && (s.agents[a] == Revoked <==> a !in s.revived)
  }

  lemma {:induction false} RowTellsRun(s: State, es: seq<Event>)
    requires RowTells(s)
    ensures RowTells(Run(s, es))
    decreases |es|
  {
    if es != [] { RowTellsRun(Next(s, es[0]), es[1..]); }
  }

  /** A request that has read both rows keeps them until it is decided by them. */
  ghost predicate Bound(s: State, r: nat, q: Request, row: TokenRow, st: Option<AgentStatus>) {
    && r in s.requests && s.requests[r].bearer == q.bearer && s.requests[r].required == q.required
    && match s.requests[r].phase
       case ReadBoth(row', st') => row' == Some(row) && st' == st
       case Done(v) => v.Gone410? <==> st == Some(Revoked)
       case _ => false
  }

  lemma BoundStep(s: State, e: Event, r: nat, q: Request, row: TokenRow, st: Option<AgentStatus>)
    requires Bound(s, r, q, row, st)
    requires row.kind.AgentToken? && row.agent.Some? && q.required.AgentToken?
    requires q.bearer.Parsed? && q.bearer.kind.AgentToken?
    ensures Bound(Next(s, e), r, q, row, st)
  {
    if e.Decide? { AuthAnswersIff(q.bearer, q.required, Some(row), st, e.now); }
  }

  lemma {:induction false} BoundRun(s: State, es: seq<Event>, r: nat, q: Request, row: TokenRow,
                                    st: Option<AgentStatus>)
    requires Bound(s, r, q, row, st)
    requires row.kind.AgentToken? && row.agent.Some? && q.required.AgentToken?
    requires q.bearer.Parsed? && q.bearer.kind.AgentToken?
    ensures Bound(Run(s, es), r, q, row, st)
    decreases |es|
  {
    if es != [] {
      BoundStep(s, es[0], r, q, row, st);
      BoundRun(Next(s, es[0]), es[1..], r, q, row, st);
    }
  }

  /** In every run, an agent request that arrived after the revocation, about to read the agent row, is
      later answered 410 if and only if no heartbeat has written that row since the revocation. */
  lemma GoneIffNotRevived(es: seq<Event>, r: nat, a: AgentId, es': seq<Event>)
    requires var s := Run(FRESH, es);
             && r in s.requests && a in s.requests[r].late
             && var q := s.requests[r];
                && q.required.AgentToken? && q.bearer.Parsed? && q.bearer.kind.AgentToken?
                && q.phase.ReadRow? && q.phase.row.Some? && q.phase.row.value.agent == Some(a)
    ensures var s := Run(FRESH, es);
            var t := Run(Next(s, ReadAgent(r)), es');
            r in t.requests && (t.requests[r].phase.Done? ==> (t.requests[r].phase.v.Gone410? <==> a !in s.revived))
  {
    RunInv(FRESH, es);
    RowTellsRun(FRESH, es);
    var s := Run(FRESH, es);
    var q := s.requests[r];
    assert RequestOk(s, q);
    BoundRun(Next(s, ReadAgent(r)), es', r, q, q.phase.row.value, StatusOf(s, q.phase.row));
  }

  function Revival(a: AgentId, r: nat): seq<Event> { [RevokeAgent(a)] + ([WriteHeartbeat(r)] + []) }

  /** The whole of a request, from a state where nothing else happens. */
  function RequestFor(r: nat, b: Bearer, required: Kind, now: int): seq<Event> {
    [Arrive(r, b, required)] + ([ReadToken(r)] + ([ReadAgent(r)] + ([Decide(r, now)] + [])))
  }

  function LaterRequest(r: nat, b: Bearer, now: int): seq<Event> { RequestFor(r, b, AgentToken, now) }

  lemma RunCons(s: State, e: Event, es: seq<Event>)
    ensures Run(s, [e] + es) == Run(Next(s, e), es)
  {
    assert ([e] + es)[1..] == es;
  }

  lemma RequestRuns(s: State, r: nat, b: Bearer, required: Kind, now: int)
    requires r !in s.requests
    ensures var t := Run(s, RequestFor(r, b, required, now));
            && r in t.requests && t.requests[r].late == s.revoked
            && t.requests[r].phase == Done(RequireAuth(b, required, Lookup(s, b), StatusOf(s, Lookup(s, b)), now))
  {
    var s1 := Next(s, Arrive(r, b, required));
    var s2 := Next(s1, ReadToken(r));
    var s3 := Next(s2, ReadAgent(r));
    RunCons(s, Arrive(r, b, required), [ReadToken(r)] + ([ReadAgent(r)] + ([Decide(r, now)] + [])));
    RunCons(s1, ReadToken(r), [ReadAgent(r)] + ([Decide(r, now)] + []));
    RunCons(s2, ReadAgent(r), [Decide(r, now)] + []);
    RunCons(s3, Decide(r, now), []);
    assert s1.requests[r].phase == Arrived && s2.requests[r].phase == ReadRow(Lookup(s, b));
    assert s3.requests[r].phase == ReadBoth(Lookup(s, b), StatusOf(s, Lookup(s, b)));
  }

  /** A heartbeat authenticated before the revocation puts the agent back online after it; the
      agent's next request is then answered 401, not the 410 that tells it to wipe. */
  lemma RevivedAgentGets401(s: State, r: nat, r': nat, b: Bearer, a: AgentId, now: int)
    requires Inv(s) && a in s.agents && r in s.requests && r' !in s.requests
    requires s.requests[r].required.AgentToken? && Passed(s.requests[r]) == Some(a)
    requires b == s.requests[r].bearer
    ensures var t := Run(s, Revival(a, r));
            && a in t.revoked && a in t.agents && t.agents[a] == Online
            && var u := Run(t, LaterRequest(r', b, now));
               r' in u.requests && a in u.requests[r'].late && u.requests[r'].phase == Done(Unauthorized401)
  {
    var t := Run(s, Revival(a, r));
    var s1 := Next(s, RevokeAgent(a));
    RunCons(s, RevokeAgent(a), [WriteHeartbeat(r)] + []);
    RunCons(s1, WriteHeartbeat(r), []);
    assert RequestOk(s, s.requests[r]);
    assert s.tokens[b.id].agent == Some(a);
    assert t.tokens[b.id] == RevokeRow(s.tokens[b.id], a);
    RequestRuns(t, r', b, AgentToken, now);
  }

  // ---------- nobody else is refused ----------

  /** A usable token of agent a. */
  predicate Usable(row: TokenRow, a: AgentId, secret: string) {
    row.kind.AgentToken? && row.agent == Some(a) && row.secret == secret && !row.revoked && row.expires.None?
  }

  /** Neither the agent nor the token is revoked by the event. */
  predicate Spares(e: Event, a: AgentId, id: TokenId) { e != RevokeAgent(a) && e != RevokeToken(id) }

  /** Agent a and its token, if they exist, are untouched. */
  predicate Intact(s: State, a: AgentId, id: TokenId) {
    && (a in s.agents ==> s.agents[a] == Online)
    && (id in s.tokens && s.tokens[id].agent == Some(a) ==> !s.tokens[id].revoked && s.tokens[id].expires.None?)
  }

  lemma {:induction false} IntactRun(s: State, es: seq<Event>, a: AgentId, id: TokenId)
    requires Intact(s, a, id) && forall e :: e in es ==> Spares(e, a, id)
    ensures Intact(Run(s, es), a, id)
    decreases |es|
  {
    if es != [] {
      assert es[0] in es;
      IntactStep(s, es[0], a, id);
      IntactRun(Next(s, es[0]), es[1..], a, id);
    }
  }

  lemma IntactStep(s: State, e: Event, a: AgentId, id: TokenId)
    requires Intact(s, a, id) && Spares(e, a, id)
    ensures Intact(Next(s, e), a, id)
  {
  }

  /** The request holds nothing but usable rows, and was let through if it was decided. */
  predicate OnItsWay(s: State, r: nat, b: Bearer, a: AgentId) {
    && b.Parsed? && b.kind.AgentToken? && b.id in s.tokens && Usable(s.tokens[b.id], a, b.secret)
    && a in s.agents && s.agents[a] == Online
    && r in s.requests && s.requests[r].bearer == b && s.requests[r].required.AgentToken?
    && match s.requests[r].phase
       case Arrived => true
       case ReadRow(row) => row.Some? && Usable(row.value, a, b.secret)
       case ReadBoth(row, st) => row.Some? && Usable(row.value, a, b.secret) && st == Some(Online)
       case Done(v) => v == Pass(Some(a))
  }

  lemma OnItsWayRequest(s: State, e: Event, r: nat, b: Bearer, a: AgentId)
    requires OnItsWay(s, r, b, a) && (e.Arrive? || e.ReadToken? || e.ReadAgent? || e.Decide?)
    ensures OnItsWay(Next(s, e), r, b, a)
  {
  }

  lemma OnItsWayStore(s: State, e: Event, r: nat, b: Bearer, a: AgentId)
    requires OnItsWay(s, r, b, a) && Spares(e, a, b.id)
    requires !(e.Arrive? || e.ReadToken? || e.ReadAgent? || e.Decide?)
    ensures OnItsWay(Next(s, e), r, b, a)
  {
  }

  lemma {:induction false} OnItsWayRun(s: State, es: seq<Event>, r: nat, b: Bearer, a: AgentId)
    requires OnItsWay(s, r, b, a) && forall e :: e in es ==> Spares(e, a, b.id)
    ensures OnItsWay(Run(s, es), r, b, a)
    decreases |es|
  {
    if es != [] {
      var e := es[0];
      assert e in es;
      if e.Arrive? || e.ReadToken? || e.ReadAgent? || e.Decide? { OnItsWayRequest(s, e, r, b, a); }
      else { OnItsWayStore(s, e, r, b, a); }
      OnItsWayRun(Next(s, e), es[1..], r, b, a);
    }
  }

  /** In every run in which neither this agent nor this token is revoked, whoever else is: a request
      that arrives with the agent's token and gets an answer is let through as that agent. */
  lemma ActiveAgentPasses(es: seq<Event>, r: nat, b: Bearer, a: AgentId, es': seq<Event>)
    requires b.Parsed? && b.kind.AgentToken?
    requires var s := Run(FRESH, es);
             r !in s.requests && Speaks(s, b, a) && s.tokens[b.id].secret == b.secret
    requires (forall e :: e in es ==> Spares(e, a, b.id)) && (forall e :: e in es' ==> Spares(e, a, b.id))
    ensures var t := Run(Next(Run(FRESH, es), Arrive(r, b, AgentToken)), es');
            r in t.requests && (t.requests[r].phase.Done? ==> t.requests[r].phase.v == Pass(Some(a)))
  {
    RunInv(FRESH, es);
    IntactRun(FRESH, es, a, b.id);
    OnItsWayRun(Next(Run(FRESH, es), Arrive(r, b, AgentToken)), es', r, b, a);
  }

  /** And such requests exist: an agent enrolled from scratch is let in with the token it was given. */
  lemma EnrolledAgentPasses(a: AgentId, id: TokenId, secret: string, r: nat, now: int)
    ensures var s := Next(Next(FRESH, CreateAgent(a)), CreateAgentToken(a, id, secret));
            var t := Run(s, LaterRequest(r, Parsed(id, AgentToken, secret), now));
            r in t.requests && t.requests[r].phase == Done(Pass(Some(a)))
  {
    var s := Next(Next(FRESH, CreateAgent(a)), CreateAgentToken(a, id, secret));
    RequestRuns(s, r, Parsed(id, AgentToken, secret), AgentToken, now);
  }

  /** A fresh token of another kind, unrevoked, unused and unexpired, is let in on the routes of its kind. */
  lemma OtherTokenPasses(s: State, id: TokenId, row: TokenRow, r: nat, now: int)
    requires id !in s.tokens && r !in s.requests && !row.kind.AgentToken? && row.agent.None? && !Dead(row)
    requires row.expires.Some? ==> now <= row.expires.value
    ensures var b := Parsed(id, row.kind, row.secret);
            var t := Run(Next(s, CreateOtherToken(id, row)), RequestFor(r, b, row.kind, now));
            r in t.requests && t.requests[r].phase == Done(Pass(None))
  {
    RequestRuns(Next(s, CreateOtherToken(id, row)), r, Parsed(id, row.kind, row.secret), row.kind, now);
  }

  // ---------- a dead token stays dead ----------

  /** Revoked, or a join token that was used. */
  predicate Dead(row: TokenRow) { row.revoked || (row.kind.JoinToken? && row.used) }

  lemma RevokeTokenKills(s: State, id: TokenId)
    requires id in s.tokens
    ensures id in Next(s, RevokeToken(id)).tokens && Dead(Next(s, RevokeToken(id)).tokens[id])
    ensures s.tokens[id].kind.JoinToken? ==>
      id in Next(s, MarkJoinTokenUsed(id)).tokens && Dead(Next(s, MarkJoinTokenUsed(id)).tokens[id])
  {
  }

  predicate Doomed(s: State, r: nat, b: Bearer) {
    && b.Parsed? && b.id in s.tokens && Dead(s.tokens[b.id])
    && r in s.requests && s.requests[r].bearer == b
    && match s.requests[r].phase
       case Arrived => true
       case ReadRow(row) => row.Some? && Dead(row.value)
       case ReadBoth(row, st) => row.Some? && Dead(row.value)
       case Done(v) => !v.Pass?
  }

  lemma DoomedStep(s: State, e: Event, r: nat, b: Bearer)
    requires Doomed(s, r, b)
    ensures Doomed(Next(s, e), r, b)
  {
  }

  lemma {:induction false} DoomedRun(s: State, es: seq<Event>, r: nat, b: Bearer)
    requires Doomed(s, r, b)
    ensures Doomed(Run(s, es), r, b)
    decreases |es|
  {
    if es != [] {
      DoomedStep(s, es[0], r, b);
      DoomedRun(Next(s, es[0]), es[1..], r, b);
    }
  }

  /** In every run, a request that arrives with a revoked token of any kind, or a used join token, is
      never let through. */
  lemma DeadTokenIsRefused(s: State, r: nat, b: Bearer, required: Kind, es: seq<Event>)
    requires b.Parsed? && b.id in s.tokens && Dead(s.tokens[b.id]) && r !in s.requests
    ensures var t := Run(Next(s, Arrive(r, b, required)), es);
            r in t.requests && (t.requests[r].phase.Done? ==> !t.requests[r].phase.v.Pass?)
  {
    DoomedRun(Next(s, Arrive(r, b, required)), es, r, b);
  }

  // ---------- the store's own code ----------

  /** Exactly the agent tokens of a are marked; every other row is as it was. */
  ghost predicate OnlyTokensOf(a: AgentId, before: map<TokenId, TokenRow>, after: map<TokenId, TokenRow>) {
    && after.Keys == before.Keys
    && forall id :: id in before ==>
         if before[id].kind.AgentToken? && before[id].agent == Some(a)
         then after[id] == before[id].(revoked := true)
         else after[id] == before[id]
  }

  datatype StoreError = NoError | NotFound | IoError

  /** The agents and tokens tables. */
  class Registry {
    var agents: map<AgentId, AgentStatus>
    var tokens: map<TokenId, TokenRow>

    constructor ()
      ensures agents == map[] && tokens == map[]
    {
      agents, tokens := map[], map[];
    }

    /** One transaction: both tables change, or neither does. `stop` is where it fails, if anywhere. */
    method RevokeAgentTx(a: AgentId, stop: nat) returns (err: StoreError)
      modifies this
      ensures err == NotFound <==> stop > 1 && a !in old(agents)
      ensures err == NoError ==>
        a in old(agents) && agents == old(agents)[a := Revoked] && tokens == RevokeRows(old(tokens), a)
      ensures err == NoError ==> OnlyTokensOf(a, old(tokens), tokens)
      ensures err != NoError ==> agents == old(agents) && tokens == old(tokens)
      ensures stop > 4 && a in old(agents) ==> err == NoError
    {
      if stop == 0 { return IoError; }                      // begin
      if stop == 1 { return IoError; }                      // select the name
      if a !in agents { return NotFound; }
      var newAgents := agents[a := Revoked];
      if stop == 2 { return IoError; }                      // update agents
      var newTokens := RevokeRows(tokens, a);
      if stop == 3 { return IoError; }                      // update tokens
      if stop == 4 { return IoError; }                      // commit
      agents, tokens := newAgents, newTokens;
      return NoError;
    }

    /** UpdateAgentHeartbeat sets the status without looking at it. */
    method UpdateAgentHeartbeat(a: AgentId, ok: bool) returns (err: StoreError)
      modifies this`agents
      ensures agents == if ok && a in old(agents) then old(agents)[a := Online] else old(agents)
      ensures err == if ok then NoError else IoError
    {
      if !ok { return IoError; }
      if a in agents { agents := agents[a := Online]; }
      return NoError;
    }
  }
}
