/**
 Enrollment of agents (src/agent-identities.js): an administrator's code becomes
 a request, an approval turns the request into an agent, and the agent collects
 its token once, with the secret it got when it applied.

 Random values are numbers nobody drew before. A hash is a wrapper, so it is
 injective and says nothing else about what it hides.
 */
module AgentIdentities {
  import opened Common

  const ENROLLMENT_TTL_MS := 600_000
  const REQUEST_TTL_MS := 600_000
  const MAX_ACTIVE_ENROLLMENTS := 20
  const MAX_PENDING_REQUESTS := 20
  const MAX_CODE_ATTEMPTS := 5
  const CODE_RETENTION_MS := 24 * 60 * 60 * 1000
  const CODE_ALPHABET := "23456789ABCDEFGHJKLMNPQRSTUVWXYZ"
  const CODE_LENGTH := 6

  /** The kinds of secret, told apart by their prefix. */
  datatype Secret = Code(text: string) | ClaimSecret(random: nat) | AgentToken(random: nat) | Malformed(text: string)

  datatype Hashed = Hashed(secret: Secret)

  datatype CodeRow = CodeRow(hash: Hashed, expiresAt: int, usedAt: Option<int>, attempts: nat, lockedAt: Option<int>)

  datatype Status = Pending | Approved | Rejected | Expired

  datatype RequestRow = RequestRow(tokenId: nat, hostName: string, claimHash: Hashed, expiresAt: int,
                                   status: Status, agentId: Option<nat>)

  datatype AgentRow = AgentRow(hostName: string, tokenHash: Hashed, revokedAt: Option<int>)

  datatype Held = Held(token: Secret, agentId: nat)

  /** An agent token coming into being, and one leaving through a claim. */
  datatype Issue = Issue(agentId: nat, token: Secret)
  datatype HandOut = HandOut(requestId: nat, token: Secret)

  /** The tables, the approved tokens held in memory, and for the statements
      below: the random values drawn, the clock, and the two logs. */
  datatype Store = Store(
    codes: map<nat, CodeRow>, requests: map<nat, RequestRow>, agents: map<nat, AgentRow>,
    pendingTokens: map<nat, Held>,
    drawn: set<nat>, clock: int, issued: seq<Issue>, handedOut: seq<HandOut>)

  const EMPTY := Store(map[], map[], map[], map[], {}, 0, [], [])

  datatype Event =
    | CreateEnrollment(now: int, tokenId: nat, code: string)
    | RequestEnrollment(now: int, code: string, hostName: string, requestId: nat, claim: nat)
    | RecordAttempt(now: int, code: string)
    | Approve(now: int, requestId: nat, replaceExisting: bool, agentId: nat, token: nat)
    | Reject(now: int, requestId: nat)
    | Claim(now: int, requestId: nat, secret: Secret)
    | ExpireStale(now: int)
    | Rotate(now: int, agentId: nat, current: Secret, token: nat)
    | Revoke(now: int, agentId: nat)
    | PruneCodes(now: int)
    | Restart(now: int)

  datatype Reply =
    | Refused(reason: string)
    | CodeCreated(tokenId: nat)
    | RequestMade(requestId: nat, claim: Secret)
    | AgentMade(agentId: nat)
    | ClaimAnswer(status: string)
    | TokenHanded(token: Secret, agentId: nat)
    | Rotated(token: Secret)
    | Done

  datatype Result = Result(store: Store, reply: Reply)

  // --------------------------------------------------------------- selections

  predicate WellFormedCode(code: string) {
    |code| == CODE_LENGTH && forall i :: 0 <= i < |code| ==> code[i] in CODE_ALPHABET
  }

  predicate Live(c: CodeRow, now: int) {
    c.usedAt.None? && c.expiresAt > now
  }

  predicate Waiting(r: RequestRow, now: int) {
    r.status == Pending && r.expiresAt > now
  }

  function LiveCodes(codes: map<nat, CodeRow>, now: int): set<nat> {
    set t <- codes | Live(codes[t], now)
  }

  function WaitingRequests(requests: map<nat, RequestRow>, now: int): set<nat> {
    set r <- requests | Waiting(requests[r], now)
  }

  /** The rows a `WHERE tokenHash = ? AND usedAt IS NULL AND expiresAt > ?` finds. */
  function Matching(codes: map<nat, CodeRow>, code: string, now: int): set<nat> {
    set t <- codes | codes[t].hash == Hashed(Code(code)) && Live(codes[t], now)
  }

  /** The one row found, by the uniqueness of `tokenHash`. */
  ghost function TheCode(codes: map<nat, CodeRow>, code: string, now: int): (t: Option<nat>)
    ensures t.Some? ==> t.value in codes && codes[t.value].hash == Hashed(Code(code)) && Live(codes[t.value], now)
    ensures t.None? ==> Matching(codes, code, now) == {}
  {
    if t :| t in codes && codes[t].hash == Hashed(Code(code)) && Live(codes[t], now) then Some(t) else None
  }

  predicate Verifies(s: Store, token: Secret, agentId: nat) {
    && token.AgentToken?
    && agentId in s.agents && s.agents[agentId].tokenHash == Hashed(token) && s.agents[agentId].revokedAt.None?
  }

  // -------------------------------------------------------------------- steps

  function AfterCreate(s: Store, now: int, tokenId: nat, code: string): Result {
    if |LiveCodes(s.codes, now)| >= MAX_ACTIVE_ENROLLMENTS then Result(s, Refused("too many codes"))
    else if exists t <- s.codes :: s.codes[t].hash == Hashed(Code(code)) then Result(s, Refused("not unique"))
    else Result(s.(codes := s.codes[tokenId := CodeRow(Hashed(Code(code)), now + ENROLLMENT_TTL_MS, None, 0, None)],
                   drawn := s.drawn + {tokenId}),
                CodeCreated(tokenId))
  }

  ghost function AfterRequest(s: Store, now: int, code: string, hostName: string, requestId: nat, claim: nat): Result {
    if !WellFormedCode(code) then Result(s, Refused("invalid_code"))
    else if |WaitingRequests(s.requests, now)| >= MAX_PENDING_REQUESTS then Result(s, Refused("too_many_pending"))
    else match TheCode(s.codes, code, now)
      case None => Result(s, Refused("invalid_code"))
      case Some(t) =>
        if s.codes[t].lockedAt.Some? then Result(s, Refused("locked"))
        else
          var secret := ClaimSecret(claim);
          var row := RequestRow(t, hostName, Hashed(secret), now + REQUEST_TTL_MS, Pending, None);
          Result(s.(codes := s.codes[t := s.codes[t].(usedAt := Some(now))],
                    requests := s.requests[requestId := row],
                    drawn := s.drawn + {requestId, claim}),
                 RequestMade(requestId, secret))
  }

  ghost function AfterAttempt(s: Store, now: int, code: string): Result {
    match TheCode(s.codes, code, now)
    case None => Result(s, Done)
    case Some(t) =>
      var n := s.codes[t].attempts + 1;
      var row := s.codes[t].(attempts := n, lockedAt := if n >= MAX_CODE_ATTEMPTS then Some(now) else None);
      Result(s.(codes := s.codes[t := row]), Done)
  }

  function Revoked(a: AgentRow, now: int): AgentRow {
    if a.revokedAt.None? then a.(revokedAt := Some(now)) else a
  }

  /** With `replace`, the agents of that host are revoked; none is deleted. */
  function Displaced(agents: map<nat, AgentRow>, hostName: string, replace: bool, now: int): map<nat, AgentRow> {
    map a <- agents :: if replace && agents[a].hostName == hostName then Revoked(agents[a], now) else agents[a]
  }

  function AfterApprove(s: Store, now: int, requestId: nat, replaceExisting: bool, agentId: nat, token: nat): Result {
    if requestId !in s.requests || !Waiting(s.requests[requestId], now) then Result(s, Refused("not pending"))
    else
      var request := s.requests[requestId];
      var secret := AgentToken(token);
      var agents := Displaced(s.agents, request.hostName, replaceExisting, now);
      Result(s.(agents := agents[agentId := AgentRow(request.hostName, Hashed(secret), None)],
                requests := s.requests[requestId := request.(status := Approved, agentId := Some(agentId))],
                pendingTokens := s.pendingTokens[requestId := Held(secret, agentId)],
                drawn := s.drawn + {agentId, token},
                issued := s.issued + [Issue(agentId, secret)]),
             AgentMade(agentId))
  }

  function AfterReject(s: Store, requestId: nat): Result {
    if requestId in s.requests && s.requests[requestId].status == Pending then
      Result(s.(requests := s.requests[requestId := s.requests[requestId].(status := Rejected)],
                pendingTokens := s.pendingTokens - {requestId}), Done)
    else Result(s, Refused("not pending"))
  }

  function StatusName(st: Status): string {
    match st
    case Pending => "pending"
    case Approved => "collected"
    case Rejected => "rejected"
    case Expired => "expired"
  }

  function AfterClaim(s: Store, now: int, requestId: nat, secret: Secret): Result {
    if !secret.ClaimSecret? || requestId !in s.requests || s.requests[requestId].claimHash != Hashed(secret)
    then Result(s, ClaimAnswer("unknown"))
    else
      var request := s.requests[requestId];
      if request.status == Pending && request.expiresAt <= now then Result(s, ClaimAnswer("expired"))
      else if request.status != Approved || requestId !in s.pendingTokens
      then Result(s, ClaimAnswer(StatusName(request.status)))
      else
        var held := s.pendingTokens[requestId];
        Result(s.(pendingTokens := s.pendingTokens - {requestId},
                  handedOut := s.handedOut + [HandOut(requestId, held.token)]),
               TokenHanded(held.token, held.agentId))
  }

  function AfterExpire(s: Store, now: int): Result {
    Result(s.(requests := map r <- s.requests ::
                if s.requests[r].status == Pending && s.requests[r].expiresAt <= now
                then s.requests[r].(status := Expired) else s.requests[r]), Done)
  }

  function AfterRotate(s: Store, agentId: nat, current: Secret, token: nat): Result {
    if Verifies(s, current, agentId) then
      Result(s.(agents := s.agents[agentId := s.agents[agentId].(tokenHash := Hashed(AgentToken(token)))],
                drawn := s.drawn + {token},
                issued := s.issued + [Issue(agentId, AgentToken(token))]),
             Rotated(AgentToken(token)))
    else Result(s, Refused("not current"))
  }

  function AfterRevoke(s: Store, now: int, agentId: nat): Result {
    if agentId in s.agents && s.agents[agentId].revokedAt.None? then
      Result(s.(agents := s.agents[agentId := Revoked(s.agents[agentId], now)]), Done)
    else Result(s, Refused("not active"))
  }

  function AfterPrune(s: Store, now: int): Result {
    Result(s.(codes := map t <- s.codes | s.codes[t].expiresAt >= now - CODE_RETENTION_MS :: s.codes[t]), Done)
  }

  ghost function Outcome(s: Store, e: Event): Result {
    match e
    case CreateEnrollment(now, tokenId, code) => AfterCreate(s, now, tokenId, code)
    case RequestEnrollment(now, code, hostName, requestId, claim) => AfterRequest(s, now, code, hostName, requestId, claim)
    case RecordAttempt(now, code) => AfterAttempt(s, now, code)
    case Approve(now, requestId, replace, agentId, token) => AfterApprove(s, now, requestId, replace, agentId, token)
    case Reject(_, requestId) => AfterReject(s, requestId)
    case Claim(now, requestId, secret) => AfterClaim(s, now, requestId, secret)
    case ExpireStale(now) => AfterExpire(s, now)
    case Rotate(_, agentId, current, token) => AfterRotate(s, agentId, current, token)
    case Revoke(now, agentId) => AfterRevoke(s, now, agentId)
    case PruneCodes(now) => AfterPrune(s, now)
    case Restart(_) => Result(s.(pendingTokens := map[]), Done)
  }

  ghost function Step(s: Store, e: Event): Store {
    Outcome(s.(clock := e.now), e).store
  }

  /** The clock does not go back, and random values are new. */
  predicate Enabled(s: Store, e: Event) {
    && s.clock <= e.now
    && match e
       case CreateEnrollment(_, tokenId, code) => tokenId !in s.drawn && WellFormedCode(code)
       case RequestEnrollment(_, _, _, requestId, claim) =>
         requestId !in s.drawn && claim !in s.drawn && requestId != claim
       case Approve(_, _, _, agentId, token) => agentId !in s.drawn && token !in s.drawn && agentId != token
       case Rotate(_, _, _, token) => token !in s.drawn
       case _ => true
  }

  // --------------------------------------------------------------- invariants

  /** The token an agent was given last. */
  function Latest(issued: seq<Issue>, agentId: nat): Option<Secret> {
    if issued == [] then None
    else if issued[|issued| - 1].agentId == agentId then Some(issued[|issued| - 1].token)
    else Latest(issued[..|issued| - 1], agentId)
  }

  ghost predicate CodesSound(codes: map<nat, CodeRow>, drawn: set<nat>, clock: int) {
    && (forall t <- codes :: t in drawn)
    && (forall t, u :: t in codes && u in codes && codes[t].hash == codes[u].hash ==> t == u)
    && |LiveCodes(codes, clock)| <= MAX_ACTIVE_ENROLLMENTS
  }

  ghost predicate RequestsSound(requests: map<nat, RequestRow>, codes: map<nat, CodeRow>, drawn: set<nat>, clock: int) {
    && (forall r <- requests :: r in drawn && requests[r].tokenId in drawn)
    && (forall r <- requests :: requests[r].tokenId in codes ==> codes[requests[r].tokenId].usedAt.Some?)
    && OneRequestPerCode(requests)
    && |WaitingRequests(requests, clock)| <= MAX_PENDING_REQUESTS
  }

  ghost predicate OneRequestPerCode(requests: map<nat, RequestRow>) {
    forall r, q :: r in requests && q in requests && requests[r].tokenId == requests[q].tokenId ==> r == q
  }

  predicate SameAgent(a: RequestRow, b: RequestRow) {
    a.agentId.Some? && a.agentId == b.agentId
  }

  /** An approved request has an agent of its own; no other request has any. */
  ghost predicate OneAgentPerRequest(requests: map<nat, RequestRow>) {
    && (forall r <- requests :: requests[r].agentId.Some? <==> requests[r].status == Approved)
    && (forall r, q :: r in requests && q in requests && SameAgent(requests[r], requests[q]) ==> r == q)
  }

  ghost predicate AgentsSound(requests: map<nat, RequestRow>, agents: map<nat, AgentRow>, drawn: set<nat>) {
    && OneAgentPerRequest(requests)
    && (forall r <- requests :: requests[r].agentId.Some? ==> requests[r].agentId.value in agents)
    && (forall a <- agents :: a in drawn)
  }

  ghost predicate TokensDistinct(issued: seq<Issue>) {
    forall i, j :: 0 <= i < j < |issued| ==> issued[i].token != issued[j].token
  }

  ghost predicate TokensSound(issued: seq<Issue>, agents: map<nat, AgentRow>, drawn: set<nat>) {
    && (forall i :: 0 <= i < |issued| ==>
          issued[i].token.AgentToken? && issued[i].token.random in drawn && issued[i].agentId in agents)
    && TokensDistinct(issued)
    && (forall a <- agents :: Latest(issued, a).Some? && agents[a].tokenHash == Hashed(Latest(issued, a).value))
  }

  /** The request is approved and the token was issued to its agent. */
  ghost predicate Deserved(requests: map<nat, RequestRow>, issued: seq<Issue>, r: nat, token: Secret) {
    r in requests && requests[r].agentId.Some? && Issue(requests[r].agentId.value, token) in issued
  }

  ghost predicate HandOutsSound(pendingTokens: map<nat, Held>, handedOut: seq<HandOut>,
                                requests: map<nat, RequestRow>, issued: seq<Issue>)
  {
    && (forall r <- pendingTokens :: Deserved(requests, issued, r, pendingTokens[r].token)
                                     && requests[r].agentId == Some(pendingTokens[r].agentId))
    && (forall i :: 0 <= i < |handedOut| ==>
          Deserved(requests, issued, handedOut[i].requestId, handedOut[i].token)
          && handedOut[i].requestId !in pendingTokens)
    && (forall i, j :: 0 <= i < j < |handedOut| ==> handedOut[i].requestId != handedOut[j].requestId)
  }

  ghost predicate Inv(s: Store) {
    && CodesSound(s.codes, s.drawn, s.clock)
    && RequestsSound(s.requests, s.codes, s.drawn, s.clock)
    && AgentsSound(s.requests, s.agents, s.drawn)
    && TokensSound(s.issued, s.agents, s.drawn)
    && HandOutsSound(s.pendingTokens, s.handedOut, s.requests, s.issued)
  }

  // ----------------------------------------------------- steps keep invariants

  lemma SubsetSmaller<T>(a: set<T>, b: set<T>)
    requires a <= b
    ensures |a| <= |b|
  {
    assert b == a + (b - a);
  }

  lemma FewerLater(s: Store, now: int)
    requires s.clock <= now
    ensures |LiveCodes(s.codes, now)| <= |LiveCodes(s.codes, s.clock)|
    ensures |WaitingRequests(s.requests, now)| <= |WaitingRequests(s.requests, s.clock)|
  {
    SubsetSmaller(LiveCodes(s.codes, now), LiveCodes(s.codes, s.clock));
    SubsetSmaller(WaitingRequests(s.requests, now), WaitingRequests(s.requests, s.clock));
  }

  lemma LatestOfOneMore(issued: seq<Issue>, i: Issue, agentId: nat)
    ensures Latest(issued + [i], agentId) == if i.agentId == agentId then Some(i.token) else Latest(issued, agentId)
  {
    assert (issued + [i])[..|issued|] == issued;
  }

  lemma {:induction false} LatestWasIssued(issued: seq<Issue>, agentId: nat)
    requires Latest(issued, agentId).Some?
    ensures Issue(agentId, Latest(issued, agentId).value) in issued
  {
    if issued[|issued| - 1].agentId != agentId {
      LatestWasIssued(issued[..|issued| - 1], agentId);
    }
  }

  /** Distinct tokens: one token was issued to one agent. */
  lemma IssuedToOne(issued: seq<Issue>, a: nat, b: nat, token: Secret)
    requires TokensDistinct(issued) && Issue(a, token) in issued && Issue(b, token) in issued
    ensures a == b
  {
    var m :| 0 <= m < |issued| && issued[m] == Issue(a, token);
    var n :| 0 <= n < |issued| && issued[n] == Issue(b, token);
  }

  /** Drawing more values, and changing requests without approving any, keeps codes and tokens sound. */
  lemma MoreDrawn(s: Store, drawn: set<nat>)
    requires Inv(s) && s.drawn <= drawn
    ensures Inv(s.(drawn := drawn))
  {
  }

  lemma ClockKeepsInv(s: Store, now: int)
    requires Inv(s) && s.clock <= now
    ensures Inv(s.(clock := now))
  {
    FewerLater(s, now);
  }

  lemma AddedCodeKeepsSound(codes: map<nat, CodeRow>, drawn: set<nat>, clock: int, t: nat, row: CodeRow)
    requires CodesSound(codes, drawn, clock) && t !in codes && |LiveCodes(codes, clock)| < MAX_ACTIVE_ENROLLMENTS
    requires forall u <- codes :: codes[u].hash != row.hash
    ensures CodesSound(codes[t := row], drawn + {t}, clock)
  {
    SubsetSmaller(LiveCodes(codes[t := row], clock), LiveCodes(codes, clock) + {t});
  }

  /** A row changes but keeps its hash, and does not come back to life. */
  lemma ChangedCodeKeepsSound(codes: map<nat, CodeRow>, drawn: set<nat>, clock: int, t: nat, row: CodeRow)
    requires CodesSound(codes, drawn, clock) && t in codes && row.hash == codes[t].hash
    requires Live(row, clock) ==> Live(codes[t], clock)
    ensures CodesSound(codes[t := row], drawn, clock)
  {
    SubsetSmaller(LiveCodes(codes[t := row], clock), LiveCodes(codes, clock));
  }

  lemma CreateKeepsInv(s: Store, tokenId: nat, code: string)
    requires Inv(s) && tokenId !in s.drawn
    ensures Inv(AfterCreate(s, s.clock, tokenId, code).store)
  {
    var u := AfterCreate(s, s.clock, tokenId, code).store;
    if u != s {
      MoreDrawn(s, u.drawn);
      AddedCodeKeepsSound(s.codes, s.drawn, s.clock, tokenId, u.codes[tokenId]);
    }
  }

  lemma RequestMakesSense(requests: map<nat, RequestRow>, codes: map<nat, CodeRow>, drawn: set<nat>, clock: int,
                          t: nat, requestId: nat, row: RequestRow)
    requires RequestsSound(requests, codes, drawn, clock) && t in codes && t in drawn && codes[t].usedAt.None?
    requires requestId !in requests && requestId in drawn && row.tokenId == t
    requires |WaitingRequests(requests, clock)| < MAX_PENDING_REQUESTS
    ensures RequestsSound(requests[requestId := row], codes[t := codes[t].(usedAt := Some(clock))], drawn, clock)
  {
    SubsetSmaller(WaitingRequests(requests[requestId := row], clock), WaitingRequests(requests, clock) + {requestId});
  }

  lemma NewRequestKeepsOthers(requests: map<nat, RequestRow>, agents: map<nat, AgentRow>, drawn: set<nat>,
                              pending: map<nat, Held>, handedOut: seq<HandOut>, issued: seq<Issue>,
                              requestId: nat, row: RequestRow)
    requires AgentsSound(requests, agents, drawn) && HandOutsSound(pending, handedOut, requests, issued)
    requires requestId !in requests && row.status == Pending && row.agentId.None?
    ensures AgentsSound(requests[requestId := row], agents, drawn)
    ensures HandOutsSound(pending, handedOut, requests[requestId := row], issued)
  {
  }

  lemma RequestKeepsInv(s: Store, code: string, hostName: string, requestId: nat, claim: nat)
    requires Inv(s) && requestId !in s.drawn && claim !in s.drawn
    ensures Inv(AfterRequest(s, s.clock, code, hostName, requestId, claim).store)
  {
    var u := AfterRequest(s, s.clock, code, hostName, requestId, claim).store;
    if u != s {
      var t := TheCode(s.codes, code, s.clock).value;
      MoreDrawn(s, u.drawn);
      ChangedCodeKeepsSound(s.codes, u.drawn, s.clock, t, s.codes[t].(usedAt := Some(s.clock)));
      RequestMakesSense(s.requests, s.codes, u.drawn, s.clock, t, requestId, u.requests[requestId]);
      NewRequestKeepsOthers(s.requests, s.agents, u.drawn, s.pendingTokens, s.handedOut, s.issued,
                            requestId, u.requests[requestId]);
    }
  }

  lemma AttemptKeepsInv(s: Store, code: string)
    requires Inv(s)
    ensures Inv(AfterAttempt(s, s.clock, code).store)
  {
    var u := AfterAttempt(s, s.clock, code).store;
    if u != s {
      var t := TheCode(s.codes, code, s.clock).value;
      ChangedCodeKeepsSound(s.codes, s.drawn, s.clock, t, u.codes[t]);
    }
  }

  lemma ApprovalKeepsTokens(issued: seq<Issue>, agents: map<nat, AgentRow>, drawn: set<nat>,
                            after: map<nat, AgentRow>, agentId: nat, token: nat)
    requires TokensSound(issued, agents, drawn) && token !in drawn
    requires after.Keys == agents.Keys + {agentId}
    requires forall a <- agents :: a != agentId ==> after[a].tokenHash == agents[a].tokenHash
    requires after[agentId].tokenHash == Hashed(AgentToken(token))
    ensures TokensSound(issued + [Issue(agentId, AgentToken(token))], after, drawn + {token, agentId})
  {
    var i := Issue(agentId, AgentToken(token));
    forall a <- after
      ensures Latest(issued + [i], a).Some? && after[a].tokenHash == Hashed(Latest(issued + [i], a).value)
    {
      LatestOfOneMore(issued, i, a);
    }
  }

  lemma ApprovalKeepsHandOuts(s: Store, requestId: nat, request: RequestRow, i: Issue)
    requires HandOutsSound(s.pendingTokens, s.handedOut, s.requests, s.issued)
    requires requestId in s.requests && s.requests[requestId].agentId.None? && request.agentId == Some(i.agentId)
    ensures HandOutsSound(s.pendingTokens[requestId := Held(i.token, i.agentId)], s.handedOut,
                          s.requests[requestId := request], s.issued + [i])
  {
    var issued := s.issued + [i];
    assert issued[|s.issued|] == i;
    forall x <- s.issued ensures x in issued {}
  }

  lemma ApprovalKeepsRequests(requests: map<nat, RequestRow>, codes: map<nat, CodeRow>, drawn: set<nat>, clock: int,
                              agents: map<nat, AgentRow>, after: map<nat, AgentRow>, requestId: nat, agentId: nat)
    requires RequestsSound(requests, codes, drawn, clock) && AgentsSound(requests, agents, drawn)
    requires requestId in requests && requests[requestId].status == Pending
    requires agentId !in agents && agentId in drawn && after.Keys == agents.Keys + {agentId}
    ensures var u := requests[requestId := requests[requestId].(status := Approved, agentId := Some(agentId))];
            RequestsSound(u, codes, drawn, clock) && AgentsSound(u, after, drawn)
  {
    var u := requests[requestId := requests[requestId].(status := Approved, agentId := Some(agentId))];
    SubsetSmaller(WaitingRequests(u, clock), WaitingRequests(requests, clock));
  }

  lemma ApproveKeepsRequests(s: Store, requestId: nat, replace: bool, agentId: nat, token: nat, u: Store)
    requires Inv(s) && agentId !in s.drawn && u == AfterApprove(s, s.clock, requestId, replace, agentId, token).store && u != s
    ensures CodesSound(u.codes, u.drawn, u.clock) && RequestsSound(u.requests, u.codes, u.drawn, u.clock)
    ensures AgentsSound(u.requests, u.agents, u.drawn)
  {
    MoreDrawn(s, u.drawn);
    ApprovalKeepsRequests(s.requests, s.codes, u.drawn, s.clock, s.agents, u.agents, requestId, agentId);
  }

  lemma ApproveKeepsTokens(s: Store, requestId: nat, replace: bool, agentId: nat, token: nat, u: Store)
    requires Inv(s) && token !in s.drawn && u == AfterApprove(s, s.clock, requestId, replace, agentId, token).store && u != s
    ensures TokensSound(u.issued, u.agents, u.drawn)
  {
    ApprovalKeepsTokens(s.issued, s.agents, s.drawn, u.agents, agentId, token);
    assert s.drawn + {token, agentId} == u.drawn;
  }

  lemma ApproveKeepsInv(s: Store, requestId: nat, replace: bool, agentId: nat, token: nat)
    requires Inv(s) && agentId !in s.drawn && token !in s.drawn && agentId != token
    ensures Inv(AfterApprove(s, s.clock, requestId, replace, agentId, token).store)
  {
    var u := AfterApprove(s, s.clock, requestId, replace, agentId, token).store;
    if u != s {
      ApproveKeepsRequests(s, requestId, replace, agentId, token, u);
      ApproveKeepsTokens(s, requestId, replace, agentId, token, u);
      ApprovalKeepsHandOuts(s, requestId, u.requests[requestId], Issue(agentId, AgentToken(token)));
    }
  }

  /** Some pending requests are decided, without an approval. */
  ghost predicate OnlyDecided(before: map<nat, RequestRow>, after: map<nat, RequestRow>) {
    && after.Keys == before.Keys
    && forall r <- before :: after[r] == before[r]
         || (before[r].status == Pending && after[r].status != Pending && after[r].status != Approved
             && after[r] == before[r].(status := after[r].status))
  }

  lemma DecidingKeepsRequests(requests: map<nat, RequestRow>, after: map<nat, RequestRow>, codes: map<nat, CodeRow>,
                              drawn: set<nat>, clock: int)
    requires RequestsSound(requests, codes, drawn, clock) && OnlyDecided(requests, after)
    ensures RequestsSound(after, codes, drawn, clock)
  {
    SubsetSmaller(WaitingRequests(after, clock), WaitingRequests(requests, clock));
    assert forall r <- after :: after[r].tokenId == requests[r].tokenId;
  }

  lemma DecidingKeepsAgents(requests: map<nat, RequestRow>, after: map<nat, RequestRow>, agents: map<nat, AgentRow>,
                            drawn: set<nat>, pending: map<nat, Held>, handedOut: seq<HandOut>, issued: seq<Issue>)
    requires AgentsSound(requests, agents, drawn) && OnlyDecided(requests, after)
    requires HandOutsSound(pending, handedOut, requests, issued)
    ensures AgentsSound(after, agents, drawn) && HandOutsSound(pending, handedOut, after, issued)
  {
    assert forall r <- after :: after[r].agentId == requests[r].agentId;
  }

  lemma DecidingKeepsInv(s: Store, after: map<nat, RequestRow>)
    requires Inv(s) && OnlyDecided(s.requests, after)
    ensures RequestsSound(after, s.codes, s.drawn, s.clock)
    ensures AgentsSound(after, s.agents, s.drawn)
    ensures HandOutsSound(s.pendingTokens, s.handedOut, after, s.issued)
  {
    DecidingKeepsRequests(s.requests, after, s.codes, s.drawn, s.clock);
    DecidingKeepsAgents(s.requests, after, s.agents, s.drawn, s.pendingTokens, s.handedOut, s.issued);
  }

  lemma RejectKeepsInv(s: Store, requestId: nat)
    requires Inv(s)
    ensures Inv(AfterReject(s, requestId).store)
  {
    var u := AfterReject(s, requestId).store;
    DecidingKeepsInv(s, u.requests);
  }

  lemma ClaimKeepsHandOuts(pending: map<nat, Held>, handedOut: seq<HandOut>, requests: map<nat, RequestRow>,
                           issued: seq<Issue>, requestId: nat)
    requires HandOutsSound(pending, handedOut, requests, issued) && requestId in pending
    ensures HandOutsSound(pending - {requestId}, handedOut + [HandOut(requestId, pending[requestId].token)],
                          requests, issued)
  {
    var out := handedOut + [HandOut(requestId, pending[requestId].token)];
    forall i | 0 <= i < |handedOut| ensures out[i] == handedOut[i] && out[i].requestId in requests {
      assert Deserved(requests, issued, handedOut[i].requestId, handedOut[i].token);
    }
  }

  lemma ClaimKeepsInv(s: Store, requestId: nat, secret: Secret)
    requires Inv(s)
    ensures Inv(AfterClaim(s, s.clock, requestId, secret).store)
  {
    var u := AfterClaim(s, s.clock, requestId, secret).store;
    if u != s {
      ClaimKeepsHandOuts(s.pendingTokens, s.handedOut, s.requests, s.issued, requestId);
    }
  }

  lemma ExpireKeepsInv(s: Store)
    requires Inv(s)
    ensures Inv(AfterExpire(s, s.clock).store)
  {
    DecidingKeepsInv(s, AfterExpire(s, s.clock).store.requests);
  }

  lemma MoreIssuedKeepsHandOuts(s: Store, i: Issue)
    requires HandOutsSound(s.pendingTokens, s.handedOut, s.requests, s.issued)
    ensures HandOutsSound(s.pendingTokens, s.handedOut, s.requests, s.issued + [i])
  {
    forall x <- s.issued ensures x in s.issued + [i] {}
  }

  lemma RotateKeepsTokens(s: Store, agentId: nat, current: Secret, token: nat, u: Store)
    requires Inv(s) && token !in s.drawn && u == AfterRotate(s, agentId, current, token).store && u != s
    ensures TokensSound(u.issued, u.agents, u.drawn)
  {
    ApprovalKeepsTokens(s.issued, s.agents, s.drawn, u.agents, agentId, token);
    assert s.drawn + {token, agentId} == u.drawn;
  }

  lemma RotateKeepsInv(s: Store, agentId: nat, current: Secret, token: nat)
    requires Inv(s) && token !in s.drawn
    ensures Inv(AfterRotate(s, agentId, current, token).store)
  {
    var u := AfterRotate(s, agentId, current, token).store;
    if u != s {
      MoreDrawn(s, u.drawn);
      RotateKeepsTokens(s, agentId, current, token, u);
      MoreIssuedKeepsHandOuts(s, Issue(agentId, AgentToken(token)));
    }
  }

  lemma RevokeKeepsInv(s: Store, now: int, agentId: nat)
    requires Inv(s)
    ensures Inv(AfterRevoke(s, now, agentId).store)
  {
  }

  lemma PruneKeepsInv(s: Store, now: int)
    requires Inv(s)
    ensures Inv(AfterPrune(s, now).store)
  {
    var u := AfterPrune(s, now).store;
    SubsetSmaller(LiveCodes(u.codes, s.clock), LiveCodes(s.codes, s.clock));
  }

  lemma StepKeepsInv(s0: Store, e: Event)
    requires Inv(s0) && Enabled(s0, e)
    ensures Inv(Step(s0, e))
  {
    ClockKeepsInv(s0, e.now);
    var s := s0.(clock := e.now);
    match e
    case CreateEnrollment(_, tokenId, code) => CreateKeepsInv(s, tokenId, code);
    case RequestEnrollment(_, code, host, requestId, claim) => RequestKeepsInv(s, code, host, requestId, claim);
    case RecordAttempt(_, code) => AttemptKeepsInv(s, code);
    case Approve(_, requestId, replace, agentId, token) => ApproveKeepsInv(s, requestId, replace, agentId, token);
    case Reject(_, requestId) => RejectKeepsInv(s, requestId);
    case Claim(_, requestId, secret) => ClaimKeepsInv(s, requestId, secret);
    case ExpireStale(_) => ExpireKeepsInv(s);
    case Rotate(_, agentId, current, token) => RotateKeepsInv(s, agentId, current, token);
    case Revoke(now, agentId) => RevokeKeepsInv(s, now, agentId);
    case PruneCodes(now) => PruneKeepsInv(s, now);
    case Restart(_) =>
  }

  // --------------------------------------------------------------- whole runs

  ghost predicate IsRun(s: Store, es: seq<Event>)
    decreases |es|
  {
    es == [] || (Enabled(s, es[0]) && IsRun(Step(s, es[0]), es[1..]))
  }

  ghost function Run(s: Store, es: seq<Event>): Store
    decreases |es|
  {
    if es == [] then s else Run(Step(s, es[0]), es[1..])
  }

  lemma {:induction false} RunKeepsInv(s: Store, es: seq<Event>)
    requires Inv(s) && IsRun(s, es)
    ensures Inv(Run(s, es))
    decreases |es|
  {
    if es != [] {
      StepKeepsInv(s, es[0]);
      RunKeepsInv(Step(s, es[0]), es[1..]);
    }
  }

  lemma EmptyIsSound()
    ensures Inv(EMPTY)
  {
    assert LiveCodes(EMPTY.codes, 0) == {} && WaitingRequests(EMPTY.requests, 0) == {};
  }

  /** Over every run, restarts included: a code yields at most one request, a
      request at most one agent, and only by approval; and the two limits are
      not exceeded, now or at any later time. */
  lemma CodesRequestsAndAgents(es: seq<Event>, later: int)
    requires IsRun(EMPTY, es) && later >= Run(EMPTY, es).clock
    ensures var s := Run(EMPTY, es);
            && OneRequestPerCode(s.requests)
            && OneAgentPerRequest(s.requests)
            && |LiveCodes(s.codes, later)| <= MAX_ACTIVE_ENROLLMENTS
            && |WaitingRequests(s.requests, later)| <= MAX_PENDING_REQUESTS
  {
    EmptyIsSound();
    RunKeepsInv(EMPTY, es);
    FewerLater(Run(EMPTY, es), later);
  }

  /** Every token is handed out at most once, and to one request only. */
  lemma TokensAreHandedOutOnce(es: seq<Event>, i: nat, j: nat)
    requires IsRun(EMPTY, es) && i < j < |Run(EMPTY, es).handedOut|
    ensures var out := Run(EMPTY, es).handedOut;
            out[i].token != out[j].token && out[i].requestId != out[j].requestId
  {
    EmptyIsSound();
    RunKeepsInv(EMPTY, es);
    HandOutsDiffer(Run(EMPTY, es), i, j);
  }

  lemma HandOutsDiffer(s: Store, i: nat, j: nat)
    requires Inv(s) && i < j < |s.handedOut|
    ensures s.handedOut[i].token != s.handedOut[j].token && s.handedOut[i].requestId != s.handedOut[j].requestId
  {
    var a, b := s.handedOut[i], s.handedOut[j];
    assert Deserved(s.requests, s.issued, a.requestId, a.token) && Deserved(s.requests, s.issued, b.requestId, b.token);
    if a.token == b.token {
      IssuedToOne(s.issued, s.requests[a.requestId].agentId.value, s.requests[b.requestId].agentId.value, a.token);
    }
  }

  lemma {:induction false} RunLast(s: Store, es: seq<Event>)
    requires es != []
    ensures Run(s, es) == Step(Run(s, es[..|es| - 1]), es[|es| - 1])
    ensures IsRun(s, es) ==> IsRun(s, es[..|es| - 1]) && Enabled(Run(s, es[..|es| - 1]), es[|es| - 1])
    decreases |es|
  {
    var before := es[..|es| - 1];
    if before != [] {
      RunLast(Step(s, es[0]), es[1..]);
      assert es[1..][..|es| - 2] == before[1..] && before[0] == es[0];
    } else {
      assert es[1..] == [];
    }
  }

  /** The token was made when the request was approved, by event `a`, and claimed
      by event `c` with the secret given out for the request; no restart lost it
      in between. */
  ghost predicate Trail(es: seq<Event>, a: nat, c: nat, h: HandOut) {
    && a < c < |es|
    && es[a].Approve? && es[a].requestId == h.requestId && h.token == AgentToken(es[a].token)
    && es[c].Claim? && es[c].requestId == h.requestId
    && (forall i :: a <= i <= c ==> !es[i].Restart?)
    && var s := Run(EMPTY, es[..c]);
       && h.requestId in s.requests && s.requests[h.requestId].status == Approved
       && s.requests[h.requestId].claimHash == Hashed(es[c].secret)
  }

  /** Over every run, a token left the Hub only by a claim of its request, with
      that request's secret, after an approval that no restart came after. */
  lemma {:induction false} EveryHandOutHasItsTrail(es: seq<Event>, i: nat)
    requires i < |Run(EMPTY, es).handedOut|
    ensures exists a: nat, c: nat :: Trail(es, a, c, Run(EMPTY, es).handedOut[i])
    decreases |es|
  {
    if es != [] {
      var last := |es| - 1;
      var before := es[..last];
      var s, h := Run(EMPTY, before), Run(EMPTY, es).handedOut[i];
      RunLast(EMPTY, es);
      if i < |s.handedOut| {
        EveryHandOutHasItsTrail(before, i);
        HandOutsStay(s, es[last]);
        var a: nat, c: nat :| Trail(before, a, c, h);
        assert es[..c] == before[..c];
        assert Trail(es, a, c, h);
      } else {
        HandOutsStay(s, es[last]);
        var a := ApprovalOf(before, h.requestId);
        assert Trail(es, a, last, h);
      }
    }
  }

  lemma HandOutsStay(s: Store, e: Event)
    ensures s.handedOut <= Step(s, e).handedOut
    ensures Step(s, e).handedOut != s.handedOut ==>
              && e.Claim? && e.requestId in s.requests && s.requests[e.requestId].status == Approved
              && s.requests[e.requestId].claimHash == Hashed(e.secret) && e.requestId in s.pendingTokens
              && Step(s, e).handedOut == s.handedOut + [HandOut(e.requestId, s.pendingTokens[e.requestId].token)]
  {
  }

  /** A token held in memory comes from an approval since the last restart. */
  lemma {:induction false} ApprovalOf(es: seq<Event>, r: nat) returns (a: nat)
    requires r in Run(EMPTY, es).pendingTokens
    ensures a < |es| && es[a].Approve? && es[a].requestId == r
    ensures Run(EMPTY, es).pendingTokens[r].token == AgentToken(es[a].token)
    ensures forall i :: a <= i < |es| ==> !es[i].Restart?
    decreases |es|
  {
    assert es != [];
    var last := |es| - 1;
    var s, e := Run(EMPTY, es[..last]), es[last];
    RunLast(EMPTY, es);
    if e.Approve? && e.requestId == r && r in s.requests && Waiting(s.requests[r], e.now) {
      a := last;
    } else {
      HeldStays(s, e, r);
      a := ApprovalOf(es[..last], r);
    }
  }

  lemma HeldStays(s: Store, e: Event, r: nat)
    requires r in Step(s, e).pendingTokens
    requires !(e.Approve? && e.requestId == r && r in s.requests && Waiting(s.requests[r], e.now))
    ensures r in s.pendingTokens && s.pendingTokens[r] == Step(s, e).pendingTokens[r] && !e.Restart?
  {
  }

  predicate RequestKept(before: map<nat, RequestRow>, after: map<nat, RequestRow>, r: nat)
    requires r in before
  {
    && r in after
    && after[r].tokenId == before[r].tokenId
    && after[r].hostName == before[r].hostName
    && after[r].claimHash == before[r].claimHash
    && (before[r].status != Pending ==> after[r] == before[r])
  }

  /** A decided request keeps its status and its agent for ever, and a request
      keeps the code, host and claim secret it was made with. */
  lemma {:induction false} DecisionsAreFinal(s: Store, es: seq<Event>, r: nat)
    requires Inv(s) && IsRun(s, es) && r in s.requests
    ensures RequestKept(s.requests, Run(s, es).requests, r)
    decreases |es|
  {
    if es != [] {
      StepKeepsInv(s, es[0]);
      StepKeepsDecision(s, es[0], r);
      DecisionsAreFinal(Step(s, es[0]), es[1..], r);
    }
  }

  lemma StepKeepsDecision(s0: Store, e: Event, r: nat)
    requires Inv(s0) && Enabled(s0, e) && r in s0.requests
    ensures RequestKept(s0.requests, Step(s0, e).requests, r)
  {
    var s := s0.(clock := e.now);
    assert r in s.drawn;
    match e
    case RequestEnrollment(_, code, host, requestId, claim) => RequestKeepsRow(s, code, host, requestId, claim, r);
    case Approve(_, requestId, replace, agentId, token) => ApproveKeepsRow(s, requestId, replace, agentId, token, r);
    case Reject(_, requestId) => RejectKeepsRow(s, requestId, r);
    case ExpireStale(_) => ExpireKeepsRow(s, r);
    case CreateEnrollment(_, _, _) => OthersKeepRequests(s, e);
    case RecordAttempt(_, _) => OthersKeepRequests(s, e);
    case Claim(_, _, _) => OthersKeepRequests(s, e);
    case Rotate(_, _, _, _) => OthersKeepRequests(s, e);
    case Revoke(_, _) => OthersKeepRequests(s, e);
    case PruneCodes(_) => OthersKeepRequests(s, e);
    case Restart(_) => OthersKeepRequests(s, e);
  }

  lemma OthersKeepRequests(s: Store, e: Event)
    requires !e.RequestEnrollment? && !e.Approve? && !e.Reject? && !e.ExpireStale?
    ensures Outcome(s, e).store.requests == s.requests
  {
  }

  lemma RequestKeepsRow(s: Store, code: string, host: string, requestId: nat, claim: nat, r: nat)
    requires r in s.requests && r != requestId
    ensures RequestKept(s.requests, AfterRequest(s, s.clock, code, host, requestId, claim).store.requests, r)
  {
  }

  lemma ApproveKeepsRow(s: Store, requestId: nat, replace: bool, agentId: nat, token: nat, r: nat)
    requires r in s.requests
    ensures RequestKept(s.requests, AfterApprove(s, s.clock, requestId, replace, agentId, token).store.requests, r)
  {
  }

  lemma RejectKeepsRow(s: Store, requestId: nat, r: nat)
    requires r in s.requests
    ensures RequestKept(s.requests, AfterReject(s, requestId).store.requests, r)
  {
  }

  lemma ExpireKeepsRow(s: Store, r: nat)
    requires r in s.requests
    ensures RequestKept(s.requests, AfterExpire(s, s.clock).store.requests, r)
  {
  }

  // ----------------------------------------------- codes, from the events

  /** What the caller is told when this is the next event. */
  ghost function ReplyTo(es: seq<Event>, e: Event): Reply {
    Outcome(Run(EMPTY, es).(clock := e.now), e).reply
  }

  /** When the code was made, unless a request has used it. */
  ghost function MadeAt(es: seq<Event>, code: string): Option<int> {
    if es == [] then None
    else
      var before, e := es[..|es| - 1], es[|es| - 1];
      if e.CreateEnrollment? && e.code == code && ReplyTo(before, e).CodeCreated? then Some(e.now)
      else if e.RequestEnrollment? && e.code == code && ReplyTo(before, e).RequestMade? then None
      else MadeAt(before, code)
  }

  /** The wrong attempts recorded since it was made. */
  ghost function Tries(es: seq<Event>, code: string): nat {
    if es == [] then 0
    else
      var before, e := es[..|es| - 1], es[|es| - 1];
      if e.CreateEnrollment? && e.code == code && ReplyTo(before, e).CodeCreated? then 0
      else if e.RecordAttempt? && e.code == code then Tries(before, code) + 1
      else Tries(before, code)
  }

  ghost function LiveRow(codes: map<nat, CodeRow>, code: string, now: int): Option<CodeRow> {
    var t := TheCode(codes, code, now);
    if t.Some? then Some(codes[t.value]) else None
  }

  lemma TheCodeIs(codes: map<nat, CodeRow>, drawn: set<nat>, clock: int, code: string, now: int, t: nat)
    requires CodesSound(codes, drawn, clock) && t in codes && codes[t].hash == Hashed(Code(code)) && Live(codes[t], now)
    ensures TheCode(codes, code, now) == Some(t)
  {
    assert t in Matching(codes, code, now);
  }

  lemma LaterRow(s: Store, code: string, now: int)
    requires Inv(s) && s.clock <= now
    ensures var row := LiveRow(s.codes, code, s.clock);
            LiveRow(s.codes, code, now) == if row.Some? && row.value.expiresAt > now then row else None
  {
    var t, u := TheCode(s.codes, code, s.clock), TheCode(s.codes, code, now);
    if u.Some? {
      TheCodeIs(s.codes, s.drawn, s.clock, code, s.clock, u.value);
    } else if t.Some? && Live(s.codes[t.value], now) {
      TheCodeIs(s.codes, s.drawn, s.clock, code, now, t.value);
    }
  }

  lemma SameLiveRow(codes: map<nat, CodeRow>, after: map<nat, CodeRow>, drawn: set<nat>, more: set<nat>, clock: int,
                    code: string, now: int)
    requires CodesSound(codes, drawn, clock) && CodesSound(after, more, clock)
    requires forall t <- codes :: codes[t].hash == Hashed(Code(code)) && Live(codes[t], now) ==> t in after && after[t] == codes[t]
    requires forall t <- after :: after[t].hash == Hashed(Code(code)) && Live(after[t], now) ==> t in codes && codes[t] == after[t]
    ensures LiveRow(after, code, now) == LiveRow(codes, code, now)
  {
    var t, u := TheCode(codes, code, now), TheCode(after, code, now);
    if t.Some? { TheCodeIs(after, more, clock, code, now, t.value); }
    if u.Some? { TheCodeIs(codes, drawn, clock, code, now, u.value); }
  }

  /** A row of another code does not matter. */
  lemma OtherRow(codes: map<nat, CodeRow>, t: nat, row: CodeRow, drawn: set<nat>, more: set<nat>, clock: int, code: string)
    requires CodesSound(codes, drawn, clock) && CodesSound(codes[t := row], more, clock)
    requires row.hash != Hashed(Code(code)) && (t in codes ==> codes[t].hash != Hashed(Code(code)))
    ensures LiveRow(codes[t := row], code, clock) == LiveRow(codes, code, clock)
  {
    SameLiveRow(codes, codes[t := row], drawn, more, clock, code, clock);
  }

  lemma CreateMakesLiveRow(s: Store, tokenId: nat, made: string, code: string)
    requires Inv(s) && tokenId !in s.drawn
    ensures var r := AfterCreate(s, s.clock, tokenId, made); var after := LiveRow(r.store.codes, code, s.clock);
            if made == code && r.reply.CodeCreated?
            then after == Some(CodeRow(Hashed(Code(code)), s.clock + ENROLLMENT_TTL_MS, None, 0, None))
            else after == LiveRow(s.codes, code, s.clock)
  {
    var r := AfterCreate(s, s.clock, tokenId, made);
    CreateKeepsInv(s, tokenId, made);
    if r.reply.CodeCreated? {
      if made == code {
        TheCodeIs(r.store.codes, r.store.drawn, s.clock, code, s.clock, tokenId);
      } else {
        OtherRow(s.codes, tokenId, r.store.codes[tokenId], s.drawn, r.store.drawn, s.clock, code);
      }
    }
  }

  lemma RequestUsesLiveRow(s: Store, used: string, host: string, requestId: nat, claim: nat, code: string)
    requires Inv(s) && requestId !in s.drawn && claim !in s.drawn
    ensures var r := AfterRequest(s, s.clock, used, host, requestId, claim); var after := LiveRow(r.store.codes, code, s.clock);
            if used == code && r.reply.RequestMade? then after.None? else after == LiveRow(s.codes, code, s.clock)
  {
    var r := AfterRequest(s, s.clock, used, host, requestId, claim);
    RequestKeepsInv(s, used, host, requestId, claim);
    if r.reply.RequestMade? {
      var t := TheCode(s.codes, used, s.clock).value;
      if used != code {
        OtherRow(s.codes, t, r.store.codes[t], s.drawn, r.store.drawn, s.clock, code);
      } else {
        UsedUp(s.codes, t, r.store.codes[t], s.drawn, s.clock, code);
      }
    }
  }

  lemma UsedUp(codes: map<nat, CodeRow>, t: nat, row: CodeRow, drawn: set<nat>, clock: int, code: string)
    requires CodesSound(codes, drawn, clock) && t in codes && codes[t].hash == Hashed(Code(code)) && !Live(row, clock)
    ensures LiveRow(codes[t := row], code, clock).None?
  {
  }

  lemma AttemptCountsOnLiveRow(s: Store, tried: string, code: string)
    requires Inv(s)
    ensures var row, after := LiveRow(s.codes, code, s.clock), LiveRow(AfterAttempt(s, s.clock, tried).store.codes, code, s.clock);
            if tried == code && row.Some?
            then after.Some? && after.value.expiresAt == row.value.expiresAt && after.value.attempts == row.value.attempts + 1
                 && (after.value.lockedAt.Some? <==> after.value.attempts >= MAX_CODE_ATTEMPTS)
            else after == row
  {
    var u := AfterAttempt(s, s.clock, tried).store;
    AttemptKeepsInv(s, tried);
    var t := TheCode(s.codes, tried, s.clock);
    if t.Some? {
      if tried == code {
        TheCodeIs(u.codes, u.drawn, s.clock, code, s.clock, t.value);
      } else {
        OtherRow(s.codes, t.value, u.codes[t.value], s.drawn, u.drawn, s.clock, code);
      }
    }
  }

  lemma PruningKeepsLiveRow(s: Store, code: string)
    requires Inv(s)
    ensures LiveRow(AfterPrune(s, s.clock).store.codes, code, s.clock) == LiveRow(s.codes, code, s.clock)
  {
    PruneKeepsInv(s, s.clock);
    SameLiveRow(s.codes, AfterPrune(s, s.clock).store.codes, s.drawn, s.drawn, s.clock, code, s.clock);
  }

  lemma OthersKeepCodes(s: Store, e: Event)
    requires !e.CreateEnrollment? && !e.RequestEnrollment? && !e.RecordAttempt? && !e.PruneCodes?
    ensures Outcome(s, e).store.codes == s.codes
  {
  }

  /** What one event does to a code that works. */
  ghost predicate RowFollows(row: Option<CodeRow>, after: Option<CodeRow>, e: Event, reply: Reply, code: string) {
    if e.CreateEnrollment? && e.code == code && reply.CodeCreated?
    then after == Some(CodeRow(Hashed(Code(code)), e.now + ENROLLMENT_TTL_MS, None, 0, None))
    else if e.RequestEnrollment? && e.code == code && reply.RequestMade? then after.None?
    else if e.RecordAttempt? && e.code == code && row.Some?
    then && after.Some? && after.value.expiresAt == row.value.expiresAt && after.value.attempts == row.value.attempts + 1
         && (after.value.lockedAt.Some? <==> after.value.attempts >= MAX_CODE_ATTEMPTS)
    else after == row
  }

  lemma CodeRowsStep(s: Store, e: Event, code: string)
    requires Inv(s) && Enabled(s, e) && s.clock == e.now
    ensures var r := Outcome(s, e);
            RowFollows(LiveRow(s.codes, code, e.now), LiveRow(r.store.codes, code, e.now), e, r.reply, code)
  {
    match e
    case CreateEnrollment(_, tokenId, made) => CreateMakesLiveRow(s, tokenId, made, code);
    case RequestEnrollment(_, used, host, requestId, claim) => RequestUsesLiveRow(s, used, host, requestId, claim, code);
    case RecordAttempt(_, tried) => AttemptCountsOnLiveRow(s, tried, code);
    case PruneCodes(_) => PruningKeepsLiveRow(s, code);
    case _ => OthersKeepCodes(s, e);
  }

  /** A code that works was made within its time and not used, and its row says how
      often it was tried; one that does not was used or is out of time. */
  ghost predicate CodeIsAs(row: Option<CodeRow>, made: Option<int>, tries: nat, now: int) {
    if row.Some?
    then && made == Some(row.value.expiresAt - ENROLLMENT_TTL_MS) && row.value.attempts == tries
         && (row.value.lockedAt.Some? <==> tries >= MAX_CODE_ATTEMPTS)
    else made.Some? ==> made.value + ENROLLMENT_TTL_MS <= now
  }

  lemma {:induction false} CodesFollowEvents(es: seq<Event>, code: string)
    requires IsRun(EMPTY, es)
    ensures var s := Run(EMPTY, es);
            CodeIsAs(LiveRow(s.codes, code, s.clock), MadeAt(es, code), Tries(es, code), s.clock)
    decreases |es|
  {
    if es != [] {
      var before, e := es[..|es| - 1], es[|es| - 1];
      RunLast(EMPTY, es);
      CodesFollowEvents(before, code);
      EmptyIsSound();
      RunKeepsInv(EMPTY, before);
      CodeFollowsOneMore(Run(EMPTY, before), e, code, MadeAt(before, code), Tries(before, code));
    }
  }

  lemma CodeFollowsOneMore(s: Store, e: Event, code: string, made: Option<int>, tries: nat)
    requires Inv(s) && Enabled(s, e) && CodeIsAs(LiveRow(s.codes, code, s.clock), made, tries, s.clock)
    ensures var reply, u := Outcome(s.(clock := e.now), e).reply, Step(s, e);
            var isMade := e.CreateEnrollment? && e.code == code && reply.CodeCreated?;
            var isUsed := e.RequestEnrollment? && e.code == code && reply.RequestMade?;
            CodeIsAs(LiveRow(u.codes, code, u.clock),
                     if isMade then Some(e.now) else if isUsed then None else made,
                     if isMade then 0 else if e.RecordAttempt? && e.code == code then tries + 1 else tries, u.clock)
  {
    LaterRow(s, code, e.now);
    ClockKeepsInv(s, e.now);
    CodeRowsStep(s.(clock := e.now), e, code);
    StepSetsClock(s, e);
  }

  lemma StepSetsClock(s: Store, e: Event)
    ensures Step(s, e).clock == e.now
  {
  }

  /** A code is good for one request, for ten minutes, and until five wrong attempts
      were recorded; whatever else happens does not matter to it. */
  lemma CodeWorksIff(es: seq<Event>, now: int, code: string, hostName: string, requestId: nat, claim: nat)
    requires IsRun(EMPTY, es) && now >= Run(EMPTY, es).clock
    ensures ReplyTo(es, RequestEnrollment(now, code, hostName, requestId, claim)) == RequestMade(requestId, ClaimSecret(claim)) <==>
            && WellFormedCode(code) && |WaitingRequests(Run(EMPTY, es).requests, now)| < MAX_PENDING_REQUESTS
            && MadeAt(es, code).Some? && now < MadeAt(es, code).value + ENROLLMENT_TTL_MS
            && Tries(es, code) < MAX_CODE_ATTEMPTS
  {
    CodesFollowEvents(es, code);
    EmptyIsSound();
    RunKeepsInv(EMPTY, es);
    LaterRow(Run(EMPTY, es), code, now);
  }

  /** A code is forgotten a day after it stopped working. */
  lemma CodesAreKeptADay(s: Store, now: int, t: nat)
    ensures var u := Step(s, PruneCodes(now));
            && (t in u.codes <==> t in s.codes && now - s.codes[t].expiresAt <= 86_400_000)
            && (t in u.codes ==> u.codes[t] == s.codes[t])
  {
  }

  // -------------------------------------- agents and tokens, from the events

  /** The host that applied under this request. */
  ghost function RequestHost(es: seq<Event>, requestId: nat): Option<string> {
    if es == [] then None
    else
      var before, e := es[..|es| - 1], es[|es| - 1];
      if e.RequestEnrollment? && e.requestId == requestId && ReplyTo(before, e).RequestMade? then Some(e.hostName)
      else RequestHost(before, requestId)
  }

  /** The host whose request was approved as this agent. */
  ghost function AgentHost(es: seq<Event>, agentId: nat): Option<string> {
    if es == [] then None
    else
      var before, e := es[..|es| - 1], es[|es| - 1];
      if e.Approve? && e.agentId == agentId && ReplyTo(before, e).AgentMade? then RequestHost(before, e.requestId)
      else AgentHost(before, agentId)
  }

  /** The last of these events takes the agent out of service: it is revoked, or its
      host is approved again in its place. */
  ghost predicate Retires(before: seq<Event>, e: Event, agentId: nat) {
    || (e.Revoke? && e.agentId == agentId && ReplyTo(before, e) == Done)
    || (&& e.Approve? && e.replaceExisting && ReplyTo(before, e).AgentMade?
        && AgentHost(before, agentId).Some? && AgentHost(before, agentId) == RequestHost(before, e.requestId))
  }

  ghost predicate IsRetired(es: seq<Event>, agentId: nat) {
    es != [] && (Retires(es[..|es| - 1], es[|es| - 1], agentId) || IsRetired(es[..|es| - 1], agentId))
  }

  /** The token an agent got last, by approval or by rotation. */
  ghost function LastToken(es: seq<Event>, agentId: nat): Option<Secret> {
    if es == [] then None
    else
      var before, e := es[..|es| - 1], es[|es| - 1];
      if e.Approve? && e.agentId == agentId && ReplyTo(before, e).AgentMade? then Some(AgentToken(e.token))
      else if e.Rotate? && e.agentId == agentId && ReplyTo(before, e).Rotated? then Some(AgentToken(e.token))
      else LastToken(before, agentId)
  }

  lemma RequestRowsStep(s: Store, e: Event, r: nat)
    requires Inv(s) && Enabled(s, e)
    ensures r in Step(s, e).requests <==>
            r in s.requests
            || (e.RequestEnrollment? && e.requestId == r && Outcome(s.(clock := e.now), e).reply.RequestMade?)
    ensures r in s.requests ==> Step(s, e).requests[r].hostName == s.requests[r].hostName
    ensures r in Step(s, e).requests && r !in s.requests ==> Step(s, e).requests[r].hostName == e.hostName
    ensures e.RequestEnrollment? && e.requestId == r ==> r !in s.requests
  {
    if r in s.requests { StepKeepsDecision(s, e, r); }
  }

  lemma {:induction false} RequestsFollowEvents(es: seq<Event>, r: nat)
    requires IsRun(EMPTY, es)
    ensures var s := Run(EMPTY, es);
            RequestHost(es, r) == if r in s.requests then Some(s.requests[r].hostName) else None
    decreases |es|
  {
    if es != [] {
      var before := es[..|es| - 1];
      RunLast(EMPTY, es);
      RequestsFollowEvents(before, r);
      EmptyIsSound();
      RunKeepsInv(EMPTY, before);
      RequestRowsStep(Run(EMPTY, before), es[|es| - 1], r);
    }
  }

  /** What an approval makes of agent `a`'s row: its own, or one perhaps displaced. */
  ghost predicate ApprovedRow(s: Store, u: Store, e: Event, a: nat)
    requires e.Approve?
  {
    && e.requestId in s.requests
    && var host := s.requests[e.requestId].hostName;
       if e.agentId == a
       then a !in s.agents && a in u.agents && u.agents[a] == AgentRow(host, Hashed(AgentToken(e.token)), None)
       else (a in u.agents <==> a in s.agents)
            && (a in s.agents ==>
                  && u.agents[a].hostName == s.agents[a].hostName && u.agents[a].tokenHash == s.agents[a].tokenHash
                  && (u.agents[a].revokedAt.Some? <==>
                        s.agents[a].revokedAt.Some? || (e.replaceExisting && s.agents[a].hostName == host)))
  }

  /** What one event does to an agent's row. */
  ghost predicate AgentRowFollows(s: Store, after: Result, e: Event, a: nat) {
    if e.Approve? && after.reply.AgentMade? then ApprovedRow(s, after.store, e, a)
    else if e.Rotate? && after.reply.Rotated? then
      && e.agentId in s.agents
      && after.store.agents == s.agents[e.agentId := s.agents[e.agentId].(tokenHash := Hashed(AgentToken(e.token)))]
    else if e.Revoke? && after.reply == Done then
      && e.agentId in s.agents
      && after.store.agents == s.agents[e.agentId := s.agents[e.agentId].(revokedAt := Some(e.now))]
    else after.store.agents == s.agents
  }

  lemma ApprovalMakesRow(s: Store, e: Event, a: nat)
    requires e.Approve? && e.agentId !in s.agents
    ensures AgentRowFollows(s, Outcome(s, e), e, a)
  {
  }

  lemma OthersKeepRow(s: Store, e: Event, a: nat)
    requires !e.Approve?
    ensures AgentRowFollows(s, Outcome(s, e), e, a)
  {
  }

  lemma AgentRowsStep(s0: Store, e: Event, a: nat)
    requires Inv(s0) && Enabled(s0, e)
    ensures AgentRowFollows(s0, Outcome(s0.(clock := e.now), e), e, a)
  {
    var s := s0.(clock := e.now);
    if e.Approve? {
      assert e.agentId !in s.agents;
      ApprovalMakesRow(s, e, a);
    } else {
      OthersKeepRow(s, e, a);
    }
  }

  ghost predicate AgentIsAs(s: Store, a: nat, host: Option<string>, token: Option<Secret>) {
    if a in s.agents
    then host == Some(s.agents[a].hostName) && token.Some? && s.agents[a].tokenHash == Hashed(token.value)
    else host.None? && token.None?
  }

  lemma AgentFollows(s: Store, e: Event, a: nat, host: Option<string>, token: Option<Secret>, applied: Option<string>)
    requires Inv(s) && Enabled(s, e) && AgentIsAs(s, a, host, token)
    requires e.Approve? && e.requestId in s.requests ==> applied == Some(s.requests[e.requestId].hostName)
    ensures var reply := Outcome(s.(clock := e.now), e).reply;
            var made := e.Approve? && e.agentId == a && reply.AgentMade?;
            AgentIsAs(Step(s, e), a, if made then applied else host,
                      if made || (e.Rotate? && e.agentId == a && reply.Rotated?) then Some(AgentToken(e.token)) else token)
  {
    AgentRowsStep(s, e, a);
  }

  lemma {:induction false} HostsAndTokensFollowEvents(es: seq<Event>, a: nat)
    requires IsRun(EMPTY, es)
    ensures AgentIsAs(Run(EMPTY, es), a, AgentHost(es, a), LastToken(es, a))
    decreases |es|
  {
    if es != [] {
      var before, e := es[..|es| - 1], es[|es| - 1];
      RunLast(EMPTY, es);
      HostsAndTokensFollowEvents(before, a);
      EmptyIsSound();
      RunKeepsInv(EMPTY, before);
      if e.Approve? { RequestsFollowEvents(before, e.requestId); }
      AgentFollows(Run(EMPTY, before), e, a, AgentHost(before, a), LastToken(before, a),
                   if e.Approve? then RequestHost(before, e.requestId) else None);
    }
  }

  /** An agent is out of service exactly if an event of the run took it out. */
  lemma {:induction false} RetirementFollowsEvents(es: seq<Event>, a: nat)
    requires IsRun(EMPTY, es)
    ensures var agents := Run(EMPTY, es).agents;
            IsRetired(es, a) <==> a in agents && agents[a].revokedAt.Some?
    decreases |es|
  {
    if es != [] {
      var before, e := es[..|es| - 1], es[|es| - 1];
      RunLast(EMPTY, es);
      RetirementFollowsEvents(before, a);
      HostsAndTokensFollowEvents(before, a);
      EmptyIsSound();
      RunKeepsInv(EMPTY, before);
      AgentRowsStep(Run(EMPTY, before), e, a);
      if e.Approve? { RequestsFollowEvents(before, e.requestId); }
    }
  }

  /** A token is accepted for an agent if and only if it is the one the agent got last
      and no event of the run revoked the agent or put another in its place. */
  lemma VerifiesIffLatest(es: seq<Event>, token: Secret, agentId: nat)
    requires IsRun(EMPTY, es)
    ensures Verifies(Run(EMPTY, es), token, agentId) <==>
            LastToken(es, agentId) == Some(token) && !IsRetired(es, agentId)
  {
    HostsAndTokensFollowEvents(es, agentId);
    RetirementFollowsEvents(es, agentId);
    if LastToken(es, agentId).Some? { LastTokenIsAToken(es, agentId); }
  }

  lemma {:induction false} LastTokenIsAToken(es: seq<Event>, agentId: nat)
    requires LastToken(es, agentId).Some?
    ensures LastToken(es, agentId).value.AgentToken?
  {
    if es != [] {
      var before := es[..|es| - 1];
      if LastToken(before, agentId).Some? { LastTokenIsAToken(before, agentId); }
    }
  }

  lemma {:induction false} RetiredForGood(es: seq<Event>, i: nat, agentId: nat)
    requires i < |es| && Retires(es[..i], es[i], agentId)
    ensures IsRetired(es, agentId)
    decreases |es|
  {
    var n := |es| - 1;
    if i < n {
      assert es[..n][..i] == es[..i];
      RetiredForGood(es[..n], i, agentId);
    }
  }

  /** A revocation that was confirmed is final: no token verifies for the agent,
      however the run goes on. */
  lemma RevokedNeverVerifies(es: seq<Event>, i: nat, token: Secret)
    requires IsRun(EMPTY, es) && i < |es| && es[i].Revoke? && ReplyTo(es[..i], es[i]) == Done
    ensures !Verifies(Run(EMPTY, es), token, es[i].agentId)
  {
    RetiredForGood(es, i, es[i].agentId);
    VerifiesIffLatest(es, token, es[i].agentId);
  }

  /** Nor for any agent a host had when it was approved anew in their place. */
  lemma DisplacedNeverVerifies(es: seq<Event>, i: nat, agentId: nat, token: Secret)
    requires IsRun(EMPTY, es) && i < |es| && es[i].Approve? && es[i].replaceExisting && ReplyTo(es[..i], es[i]).AgentMade?
    requires AgentHost(es[..i], agentId).Some? && AgentHost(es[..i], agentId) == RequestHost(es[..i], es[i].requestId)
    ensures !Verifies(Run(EMPTY, es), token, agentId)
  {
    RetiredForGood(es, i, agentId);
    VerifiesIffLatest(es, token, agentId);
  }

  /** A revocation is confirmed exactly for an agent still in service, and a rotation
      exactly for the token that verifies. */
  lemma RevocationAndRotationAnswers(es: seq<Event>, now: int, agentId: nat, current: Secret, token: nat)
    requires IsRun(EMPTY, es)
    ensures ReplyTo(es, Revoke(now, agentId)) == Done <==> AgentHost(es, agentId).Some? && !IsRetired(es, agentId)
    ensures ReplyTo(es, Rotate(now, agentId, current, token)) == Rotated(AgentToken(token)) <==>
            Verifies(Run(EMPTY, es), current, agentId)
  {
    HostsAndTokensFollowEvents(es, agentId);
    RetirementFollowsEvents(es, agentId);
  }

  // --------------------------------------------- requests, from the events

  /** What became of a request, and until when it waits. */
  datatype Fate = Unknown | Waits(until: int) | Decided(status: Status)

  ghost function NextFate(was: Fate, e: Event, reply: Reply, r: nat): Fate {
    if e.RequestEnrollment? && e.requestId == r && reply.RequestMade? then Waits(e.now + 600_000)
    else if e.Approve? && e.requestId == r && reply.AgentMade? then Decided(Approved)
    else if e.Reject? && e.requestId == r && reply == Done then Decided(Rejected)
    else if e.ExpireStale? && was.Waits? && was.until <= e.now then Decided(Expired)
    else was
  }

  ghost function FateOf(es: seq<Event>, r: nat): Fate {
    if es == [] then Unknown
    else
      var before, e := es[..|es| - 1], es[|es| - 1];
      NextFate(FateOf(before, r), e, ReplyTo(before, e), r)
  }

  ghost function NextSecret(was: Option<Secret>, e: Event, reply: Reply, r: nat): Option<Secret> {
    if e.RequestEnrollment? && e.requestId == r && reply.RequestMade? then Some(ClaimSecret(e.claim)) else was
  }

  /** The secret the request was answered with. */
  ghost function SecretOf(es: seq<Event>, r: nat): Option<Secret> {
    if es == [] then None
    else
      var before, e := es[..|es| - 1], es[|es| - 1];
      NextSecret(SecretOf(before, r), e, ReplyTo(before, e), r)
  }

  ghost function NextHeld(was: Option<Held>, e: Event, reply: Reply, r: nat): Option<Held> {
    if e.Approve? && e.requestId == r && reply.AgentMade? then Some(Held(AgentToken(e.token), e.agentId))
    else if e.Restart? || (e.Claim? && e.requestId == r && reply.TokenHanded?) then None
    else was
  }

  /** The token that waits to be collected: made by the approval, and gone with the
      claim that gets it or with a restart. */
  ghost function Uncollected(es: seq<Event>, r: nat): Option<Held> {
    if es == [] then None
    else
      var before, e := es[..|es| - 1], es[|es| - 1];
      NextHeld(Uncollected(before, r), e, ReplyTo(before, e), r)
  }

  /** The row and the token in memory are as the events say. */
  ghost predicate RequestIsAs(s: Store, r: nat, fate: Fate, secret: Option<Secret>, held: Option<Held>) {
    && (r in s.requests <==> fate != Unknown)
    && (fate.Waits? ==> s.requests[r].status == Pending && s.requests[r].expiresAt == fate.until)
    && (fate.Decided? ==> fate.status != Pending && s.requests[r].status == fate.status)
    && (if r in s.requests then secret.Some? && secret.value.ClaimSecret? && s.requests[r].claimHash == Hashed(secret.value)
        else secret.None?)
    && held == (if r in s.pendingTokens then Some(s.pendingTokens[r]) else None)
    && (held.Some? ==> fate == Decided(Approved))
  }

  ghost predicate FollowsRequest(after: Result, e: Event, r: nat, fate: Fate, secret: Option<Secret>, held: Option<Held>) {
    RequestIsAs(after.store, r, NextFate(fate, e, after.reply, r), NextSecret(secret, e, after.reply, r),
                NextHeld(held, e, after.reply, r))
  }

  lemma ApplyingFollows(s: Store, e: Event, r: nat, fate: Fate, secret: Option<Secret>, held: Option<Held>)
    requires RequestIsAs(s, r, fate, secret, held) && e.RequestEnrollment? && e.requestId !in s.requests && e.requestId !in s.pendingTokens
    ensures FollowsRequest(Outcome(s, e), e, r, fate, secret, held)
  {
  }

  lemma ApprovingFollows(s: Store, e: Event, r: nat, fate: Fate, secret: Option<Secret>, held: Option<Held>)
    requires RequestIsAs(s, r, fate, secret, held) && e.Approve?
    ensures FollowsRequest(Outcome(s, e), e, r, fate, secret, held)
  {
  }

  lemma RejectingFollows(s: Store, e: Event, r: nat, fate: Fate, secret: Option<Secret>, held: Option<Held>)
    requires RequestIsAs(s, r, fate, secret, held) && e.Reject?
    ensures FollowsRequest(Outcome(s, e), e, r, fate, secret, held)
  {
  }

  lemma ClaimingFollows(s: Store, e: Event, r: nat, fate: Fate, secret: Option<Secret>, held: Option<Held>)
    requires RequestIsAs(s, r, fate, secret, held) && e.Claim?
    ensures FollowsRequest(Outcome(s, e), e, r, fate, secret, held)
  {
  }

  lemma ExpiringFollows(s: Store, e: Event, r: nat, fate: Fate, secret: Option<Secret>, held: Option<Held>)
    requires RequestIsAs(s, r, fate, secret, held) && e.ExpireStale?
    ensures FollowsRequest(Outcome(s, e), e, r, fate, secret, held)
  {
  }

  lemma RestartingFollows(s: Store, e: Event, r: nat, fate: Fate, secret: Option<Secret>, held: Option<Held>)
    requires RequestIsAs(s, r, fate, secret, held) && e.Restart?
    ensures FollowsRequest(Outcome(s, e), e, r, fate, secret, held)
  {
  }

  lemma OthersFollow(s: Store, e: Event, r: nat, fate: Fate, secret: Option<Secret>, held: Option<Held>)
    requires RequestIsAs(s, r, fate, secret, held)
    requires !e.RequestEnrollment? && !e.Approve? && !e.Reject? && !e.ExpireStale? && !e.Claim? && !e.Restart?
    ensures FollowsRequest(Outcome(s, e), e, r, fate, secret, held)
  {
  }

  lemma NewRequestHasNoToken(s: Store, requestId: nat)
    requires Inv(s) && requestId !in s.drawn
    ensures requestId !in s.requests && requestId !in s.pendingTokens
  {
    assert forall r <- s.pendingTokens :: Deserved(s.requests, s.issued, r, s.pendingTokens[r].token);
  }

  lemma RequestFollows(s0: Store, e: Event, r: nat, fate: Fate, secret: Option<Secret>, held: Option<Held>)
    requires Inv(s0) && Enabled(s0, e) && RequestIsAs(s0, r, fate, secret, held)
    ensures FollowsRequest(Outcome(s0.(clock := e.now), e), e, r, fate, secret, held)
  {
    var s := s0.(clock := e.now);
    match e
    case RequestEnrollment(_, _, _, requestId, _) =>
      NewRequestHasNoToken(s0, requestId);
      ApplyingFollows(s, e, r, fate, secret, held);
    case Approve(_, _, _, _, _) => ApprovingFollows(s, e, r, fate, secret, held);
    case Reject(_, _) => RejectingFollows(s, e, r, fate, secret, held);
    case Claim(_, _, _) => ClaimingFollows(s, e, r, fate, secret, held);
    case ExpireStale(_) => ExpiringFollows(s, e, r, fate, secret, held);
    case Restart(_) => RestartingFollows(s, e, r, fate, secret, held);
    case _ => OthersFollow(s, e, r, fate, secret, held);
  }

  lemma {:induction false} RequestsAreAsEventsSay(es: seq<Event>, r: nat)
    requires IsRun(EMPTY, es)
    ensures RequestIsAs(Run(EMPTY, es), r, FateOf(es, r), SecretOf(es, r), Uncollected(es, r))
    decreases |es|
  {
    if es != [] {
      var before, e := es[..|es| - 1], es[|es| - 1];
      RunLast(EMPTY, es);
      RequestsAreAsEventsSay(before, r);
      EmptyIsSound();
      RunKeepsInv(EMPTY, before);
      RequestFollows(Run(EMPTY, before), e, r, FateOf(before, r), SecretOf(before, r), Uncollected(before, r));
    }
  }

  /** What a claim is answered, whatever the run before it: nothing without the request's
      own secret; the token if it still waits to be collected; else what became of it. */
  lemma ClaimIsAnswered(es: seq<Event>, now: int, r: nat, secret: Secret)
    requires IsRun(EMPTY, es)
    ensures ReplyTo(es, Claim(now, r, secret)) ==
            if SecretOf(es, r) != Some(secret) then ClaimAnswer("unknown")
            else match FateOf(es, r)
              case Waits(until) => ClaimAnswer(if now < until then "pending" else "expired")
              case Decided(Approved) =>
                if Uncollected(es, r).Some? then TokenHanded(Uncollected(es, r).value.token, Uncollected(es, r).value.agentId)
                else ClaimAnswer("collected")
              case Decided(Rejected) => ClaimAnswer("rejected")
              case _ => ClaimAnswer("expired")
  {
    RequestsAreAsEventsSay(es, r);
  }

  /** A request can be approved until its time is over, and rejected until it is decided. */
  lemma DecisionsAreTakenIff(es: seq<Event>, now: int, r: nat, replace: bool, agentId: nat, token: nat)
    requires IsRun(EMPTY, es)
    ensures ReplyTo(es, Approve(now, r, replace, agentId, token)) == AgentMade(agentId) <==>
            FateOf(es, r).Waits? && now < FateOf(es, r).until
    ensures ReplyTo(es, Reject(now, r)) == Done <==> FateOf(es, r).Waits?
  {
    RequestsAreAsEventsSay(es, r);
  }

  /** What enrolment is for: an approved machine that claims with its secret gets
      a token that works, and the same claim made again gets none. */
  lemma ApprovalThenClaim(s: Store, e: Event, later: int, secret: Secret, again: int)
    requires Inv(s) && Enabled(s, e) && e.Approve? && e.requestId in s.requests && Waiting(s.requests[e.requestId], e.now)
    requires secret.ClaimSecret? && s.requests[e.requestId].claimHash == Hashed(secret)
    ensures var token := AgentToken(e.token);
            var first := Outcome(Step(s, e).(clock := later), Claim(later, e.requestId, secret));
            var second := Outcome(first.store.(clock := again), Claim(again, e.requestId, secret));
            && first.reply == TokenHanded(token, e.agentId) && Verifies(first.store, token, e.agentId)
            && second.reply == ClaimAnswer("collected") && second.store.handedOut == first.store.handedOut
  {
    var u := Step(s, e).(clock := later);
    assert u.requests[e.requestId].status == Approved && u.pendingTokens[e.requestId] == Held(AgentToken(e.token), e.agentId);
    var first := AfterClaim(u, later, e.requestId, secret);
    assert first.store.agents[e.agentId].tokenHash == Hashed(AgentToken(e.token));
  }

  /** So no token is ever accepted for two agents. */
  lemma OneAgentPerToken(es: seq<Event>, token: Secret, a: nat, b: nat)
    requires IsRun(EMPTY, es) && Verifies(Run(EMPTY, es), token, a) && Verifies(Run(EMPTY, es), token, b)
    ensures a == b
  {
    EmptyIsSound();
    RunKeepsInv(EMPTY, es);
    var s := Run(EMPTY, es);
    LatestWasIssued(s.issued, a);
    LatestWasIssued(s.issued, b);
    IssuedToOne(s.issued, a, b, token);
  }

  predicate Locked(codes: map<nat, CodeRow>, t: nat) {
    t in codes ==> codes[t].lockedAt.Some? && codes[t].attempts >= MAX_CODE_ATTEMPTS && codes[t].usedAt.None?
  }

  predicate Unused(requests: map<nat, RequestRow>, t: nat) {
    forall r <- requests :: requests[r].tokenId != t
  }

  predicate LockedUnused(s: Store, t: nat) {
    t in s.drawn && Locked(s.codes, t) && Unused(s.requests, t)
  }

  lemma RequestKeepsLocked(s: Store, code: string, host: string, requestId: nat, claim: nat, t: nat)
    requires LockedUnused(s, t)
    ensures LockedUnused(AfterRequest(s, s.clock, code, host, requestId, claim).store, t)
  {
    var u := AfterRequest(s, s.clock, code, host, requestId, claim).store;
    if u != s {
      var other := TheCode(s.codes, code, s.clock).value;
      assert other != t;
      assert u.requests == s.requests[requestId := u.requests[requestId]] && u.requests[requestId].tokenId == other;
    }
  }

  lemma AttemptKeepsLocked(s: Store, code: string, t: nat)
    requires LockedUnused(s, t)
    ensures LockedUnused(AfterAttempt(s, s.clock, code).store, t)
  {
  }

  lemma OthersKeepLocked(s: Store, e: Event, t: nat)
    requires LockedUnused(s, t) && (e.CreateEnrollment? ==> e.tokenId != t)
    requires !e.RequestEnrollment? && !e.RecordAttempt? && !e.Approve? && !e.Reject? && !e.ExpireStale?
    ensures LockedUnused(Outcome(s, e).store, t)
  {
    OthersKeepRequests(s, e);
  }

  lemma StepKeepsLocked(s0: Store, e: Event, t: nat)
    requires Enabled(s0, e) && LockedUnused(s0, t)
    ensures LockedUnused(Step(s0, e), t)
  {
    var s := s0.(clock := e.now);
    match e
    case RequestEnrollment(_, code, host, requestId, claim) => RequestKeepsLocked(s, code, host, requestId, claim, t);
    case RecordAttempt(_, code) => AttemptKeepsLocked(s, code, t);
    case Approve(now, requestId, replace, agentId, token) =>
      var u := AfterApprove(s, now, requestId, replace, agentId, token).store;
      assert u.codes == s.codes && t in u.drawn;
      forall r <- u.requests ensures u.requests[r].tokenId != t {
        assert u.requests[r].tokenId == s.requests[r].tokenId;
      }
    case Reject(_, requestId) =>
      var u := AfterReject(s, requestId).store;
      assert u.codes == s.codes && t in u.drawn;
      assert forall r <- u.requests :: u.requests[r].tokenId == s.requests[r].tokenId;
    case ExpireStale(now) =>
      var u := AfterExpire(s, now).store;
      assert forall r <- u.requests :: u.requests[r].tokenId == s.requests[r].tokenId;
    case CreateEnrollment(_, _, _) => OthersKeepLocked(s, e, t);
    case Claim(_, _, _) => OthersKeepLocked(s, e, t);
    case Rotate(_, _, _, _) => OthersKeepLocked(s, e, t);
    case Revoke(_, _) => OthersKeepLocked(s, e, t);
    case PruneCodes(_) => OthersKeepLocked(s, e, t);
    case Restart(_) => OthersKeepLocked(s, e, t);
  }

  /** A code locked by five wrong attempts never becomes a request. */
  lemma {:induction false} LockedCodesStayUnused(s: Store, es: seq<Event>, t: nat)
    requires Inv(s) && IsRun(s, es) && LockedUnused(s, t)
    ensures forall r <- Run(s, es).requests :: Run(s, es).requests[r].tokenId != t
    decreases |es|
  {
    if es != [] {
      StepKeepsInv(s, es[0]);
      StepKeepsLocked(s, es[0], t);
      LockedCodesStayUnused(Step(s, es[0]), es[1..], t);
    }
  }

  // --------------------------------------------------------------- the module

  /** The tables and the map of approved tokens; the ghost fields only watch. */
  class AgentIdentityStore {
    var codes: map<nat, CodeRow>
    var requests: map<nat, RequestRow>
    var agents: map<nat, AgentRow>
    var pendingTokens: map<nat, Held>
    ghost var drawn: set<nat>
    ghost var clock: int
    ghost var issued: seq<Issue>
    ghost var handedOut: seq<HandOut>

    ghost function State(): Store
      reads this
    {
      Store(codes, requests, agents, pendingTokens, drawn, clock, issued, handedOut)
    }

    constructor ()
      ensures State() == EMPTY
    {
      codes, requests, agents, pendingTokens := map[], map[], map[], map[];
      drawn, clock, issued, handedOut := {}, 0, [], [];
    }

    method CreateCode(now: int, tokenId: nat, code: string) returns (reply: Reply)
      modifies this
      ensures Result(State(), reply) == Outcome(old(State()).(clock := now), CreateEnrollment(now, tokenId, code))
    {
      clock := now;
      var active := |LiveCodes(codes, now)|;
      if active >= MAX_ACTIVE_ENROLLMENTS {
        return Refused("too many codes");
      }
      if exists t <- codes :: codes[t].hash == Hashed(Code(code)) {
        return Refused("not unique");
      }
      codes := codes[tokenId := CodeRow(Hashed(Code(code)), now + ENROLLMENT_TTL_MS, None, 0, None)];
      drawn := drawn + {tokenId};
      return CodeCreated(tokenId);
    }

    /** The usable row of a code, if there is one. */
    method FindCode(code: string, now: int) returns (found: Option<nat>)
      requires CodesSound(codes, drawn, now)
      ensures found == TheCode(codes, code, now)
    {
      var rest := Matching(codes, code, now);
      assert forall t :: TheCode(codes, code, now) == Some(t) ==> t in rest;
      if rest == {} {
        return None;
      }
      var t := AnyOf(rest);
      return Some(t);
    }

    method Apply(now: int, code: string, hostName: string, requestId: nat, claim: nat) returns (reply: Reply)
      requires CodesSound(codes, drawn, now)
      modifies this
      ensures Result(State(), reply)
              == Outcome(old(State()).(clock := now), RequestEnrollment(now, code, hostName, requestId, claim))
    {
      clock := now;
      if !WellFormedCode(code) {
        return Refused("invalid_code");
      }
      var waiting := |WaitingRequests(requests, now)|;
      if waiting >= MAX_PENDING_REQUESTS {
        return Refused("too_many_pending");
      }
      var enrollment := FindCode(code, now);
      if enrollment.None? {
        return Refused("invalid_code");
      }
      var t := enrollment.value;
      if codes[t].lockedAt.Some? {
        return Refused("locked");
      }
      var secret := ClaimSecret(claim);
      requests := requests[requestId := RequestRow(t, hostName, Hashed(secret), now + REQUEST_TTL_MS, Pending, None)];
      codes := codes[t := codes[t].(usedAt := Some(now))];
      drawn := drawn + {requestId, claim};
      return RequestMade(requestId, secret);
    }

    method RecordCodeAttempt(now: int, code: string)
      requires CodesSound(codes, drawn, now)
      modifies this
      ensures State() == Step(old(State()), RecordAttempt(now, code))
    {
      clock := now;
      var row := FindCode(code, now);
      if row.None? {
        return;
      }
      var t := row.value;
      var attempts := codes[t].attempts + 1;
      codes := codes[t := codes[t].(attempts := attempts,
                                    lockedAt := if attempts >= MAX_CODE_ATTEMPTS then Some(now) else None)];
    }

    method ApproveRequest(now: int, requestId: nat, replaceExisting: bool, agentId: nat, random: nat)
      returns (reply: Reply)
      modifies this
      ensures Result(State(), reply)
              == Outcome(old(State()).(clock := now), Approve(now, requestId, replaceExisting, agentId, random))
    {
      clock := now;
      if requestId !in requests || !Waiting(requests[requestId], now) {
        return Refused("not pending");
      }
      var request := requests[requestId];
      agents := Displaced(agents, request.hostName, replaceExisting, now);
      var token := AgentToken(random);
      agents := agents[agentId := AgentRow(request.hostName, Hashed(token), None)];
      requests := requests[requestId := request.(status := Approved, agentId := Some(agentId))];
      pendingTokens := pendingTokens[requestId := Held(token, agentId)];
      drawn, issued := drawn + {agentId, random}, issued + [Issue(agentId, token)];
      return AgentMade(agentId);
    }

    method RejectRequest(now: int, requestId: nat) returns (reply: Reply)
      modifies this
      ensures Result(State(), reply) == Outcome(old(State()).(clock := now), Reject(now, requestId))
    {
      clock := now;
      if requestId !in requests || requests[requestId].status != Pending {
        return Refused("not pending");
      }
      requests := requests[requestId := requests[requestId].(status := Rejected)];
      pendingTokens := pendingTokens - {requestId};
      return Done;
    }

    method ClaimApproved(now: int, requestId: nat, secret: Secret) returns (reply: Reply)
      modifies this
      ensures Result(State(), reply) == Outcome(old(State()).(clock := now), Claim(now, requestId, secret))
    {
      clock := now;
      if !secret.ClaimSecret? || requestId !in requests {
        return ClaimAnswer("unknown");
      }
      var request := requests[requestId];
      if request.claimHash != Hashed(secret) {
        return ClaimAnswer("unknown");
      }
      if request.status == Pending {
        return ClaimAnswer(if request.expiresAt <= now then "expired" else "pending");
      }
      if request.status != Approved {
        return ClaimAnswer(StatusName(request.status));
      }
      if requestId !in pendingTokens {
        return ClaimAnswer("collected");
      }
      var held := pendingTokens[requestId];
      pendingTokens := pendingTokens - {requestId};
      handedOut := handedOut + [HandOut(requestId, held.token)];
      return TokenHanded(held.token, held.agentId);
    }

    method ExpireStaleRequests(now: int)
      modifies this
      ensures State() == Step(old(State()), ExpireStale(now))
    {
      clock := now;
      requests := map r <- requests ::
                    if requests[r].status == Pending && requests[r].expiresAt <= now
                    then requests[r].(status := Expired) else requests[r];
    }

    /** The agent a token speaks for, if any. */
    method VerifyAgentToken(token: Secret) returns (agent: Option<nat>)
      requires TokensSound(issued, agents, drawn)
      ensures agent.Some? ==> Verifies(State(), token, agent.value)
      ensures agent.None? ==> forall a <- agents :: !Verifies(State(), token, a)
    {
      if !token.AgentToken? {
        return None;
      }
      var rows := set a <- agents | agents[a].tokenHash == Hashed(token);
      assert forall a :: Verifies(State(), token, a) ==> a in rows;
      if rows == {} {
        return None;
      }
      var a := AnyOf(rows);
      forall b <- agents | Verifies(State(), token, b) ensures b == a {
        LatestWasIssued(issued, a);
        LatestWasIssued(issued, b);
        IssuedToOne(issued, a, b, token);
      }
      return if agents[a].revokedAt.Some? then None else Some(a);
    }

    method RotateAgentToken(now: int, agentId: nat, current: Secret, random: nat) returns (reply: Reply)
      modifies this
      ensures Result(State(), reply) == Outcome(old(State()).(clock := now), Rotate(now, agentId, current, random))
    {
      clock := now;
      if !current.AgentToken? || agentId !in agents
         || agents[agentId].tokenHash != Hashed(current) || agents[agentId].revokedAt.Some? {
        return Refused("not current");
      }
      var token := AgentToken(random);
      agents := agents[agentId := agents[agentId].(tokenHash := Hashed(token))];
      drawn, issued := drawn + {random}, issued + [Issue(agentId, token)];
      return Rotated(token);
    }

    method RevokeAgent(now: int, agentId: nat) returns (reply: Reply)
      modifies this
      ensures Result(State(), reply) == Outcome(old(State()).(clock := now), Revoke(now, agentId))
    {
      clock := now;
      if agentId !in agents || agents[agentId].revokedAt.Some? {
        return Refused("not active");
      }
      agents := agents[agentId := agents[agentId].(revokedAt := Some(now))];
      return Done;
    }

    method PruneEnrollmentTokens(now: int)
      modifies this
      ensures State() == Step(old(State()), PruneCodes(now))
    {
      clock := now;
      codes := map t <- codes | codes[t].expiresAt >= now - CODE_RETENTION_MS :: codes[t];
    }
  }
}
