/**
 What each request of the auth service does, told in the fields of the stored configuration: who is refused and with
 which error, what is answered, and what is stored afterwards.  `Auth.Answer` does this and nothing else.
*/
module AuthRequests {
  import opened Basics
  import opened Text
  import opened Scopes
  import opened Sorting
  import opened Tokens
  import opened Store
  import opened Auth
  import AuthRuns

  // ---------------------------------------------------------------- scopes, names and expiry

  /** An approval is for `x`: the list mentions it, or mentions nothing and `x` is one of the two given by default. */
  ghost predicate Wants(scopes: seq<string>, x: string) {
    Mentions(scopes, x) || ((forall y :: !Mentions(scopes, y)) && (x == "read" || x == "send"))
  }

  lemma RequestedMeans(scopes: seq<string>)
    ensures forall x :: x in Requested(scopes) <==> Wants(scopes, x)
  {
    hide Clean;
    CleanMeaning(scopes);
    if Clean(scopes) != [] { assert Clean(scopes)[0] in Clean(scopes); }
  }

  /** Something wanted is not allowed. */
  ghost predicate Exceeds(scopes: seq<string>, allowed: seq<string>) {
    exists x :: Wants(scopes, x) && x !in allowed
  }

  lemma ExceedsMeans(scopes: seq<string>, allowed: seq<string>)
    ensures Exceeds(scopes, allowed) <==> !(SetOf(Requested(scopes)) <= SetOf(allowed))
  {
    hide Requested, Wants;
    RequestedMeans(scopes);
    assert SetOf(Requested(scopes)) <= SetOf(allowed) <==> forall x :: x in Requested(scopes) ==> x in SetOf(allowed);
  }

  lemma TypedBlank(code: string)
    ensures TypedCode(code) == "" <==> Blank(code)
  {
    BlankTrims(code);
  }

  // ---------------------------------------------------------------- refused before the store is read

  /** Requests that are answered without the store. */
  ghost predicate AnsweredUnread(keys: Keys, req: Request) {
    match req
    case CreateSession(name, kind, _, _, _, _, _) => Blank(name) || Blank(kind)
    case ApproveSession(_, approver, scopes, _, _, _, _) => Exceeds(scopes, approver.scopes)
    case Pair(code, name, kind, _, _, _, _) => Blank(code) || Blank(name) || Blank(kind)
    case Authenticate(token, t0, _) =>
      forall claims :: Signed(keys, TrimSpace(token), claims) ==> t0 >= claims.expiry * SECOND
    case RevokeClient(id) => Blank(id)
    case _ => false
  }

  function Unread(req: Request): Reply {
    match req
    case CreateSession(_, _, _, _, _, _, _) => Failed(MissingNames)
    case ApproveSession(_, _, _, _, _, _, _) => Failed(Forbidden)
    case Pair(_, _, _, _, _, _, _) => Failed(InvalidCode)
    case RevokeClient(_) => Revoked(false)
    case _ => Failed(Unauthorized)
  }

  lemma EarlyMeans(keys: Keys, req: Request)
    ensures Early(keys, req).Some? <==> AnsweredUnread(keys, req)
    ensures Early(keys, req).Some? ==> Early(keys, req).value == Unread(req)
  {
    hide TrimSpace, TypedCode, Verify, Clean, Requested, Blank, Signed;
    match req
    case CreateSession(name, kind, _, _, _, _, _) =>
      BlankTrims(name);
      BlankTrims(kind);
    case ApproveSession(_, approver, scopes, _, _, _, _) =>
      ExceedsMeans(scopes, approver.scopes);
    case Pair(code, name, kind, _, _, _, _) =>
      TypedBlank(code);
      BlankTrims(name);
      BlankTrims(kind);
    case Authenticate(token, t0, _) =>
      forall claims ensures Verify(keys, TrimSpace(token), t0) == Ok(claims)
        <==> Signed(keys, TrimSpace(token), claims) && t0 < claims.expiry * SECOND
      {
        VerifyMeans(keys, TrimSpace(token), t0, claims);
      }
    case RevokeClient(id) =>
      BlankTrims(id);
    case _ =>
  }

  // ---------------------------------------------------------------- the store in trouble

  /**
   When the configuration cannot be saved, nothing is stored, and a request that would have stored something fails; when
   it cannot even be read, so does every request that needs it.
  */
  lemma TroubleStoresNothing(keys: Keys, cfg: Config, req: Request, io: Io)
    requires io != Works
    ensures var (after, reply) := Answer(keys, cfg, req, io);
      var calm := Answer(keys, cfg, req, Works).1;
      && after == cfg
      && reply ==
           if AnsweredUnread(keys, req) then Unread(req)
           else if io == CannotSave && (calm.Failed? || req.GetSession? || req.ListClients?) then calm
           else if req.Authenticate? then Failed(Unauthorized) else Failed(StoreFailed)
  {
    hide Early, AnsweredUnread, Unread, Filter, First, Seal, TrimSpace, Verify, TypedCode, Requested;
    EarlyMeans(keys, req);
  }

  // ---------------------------------------------------------------- what each request does

  /** `i` is the first position with that session id. */
  ghost predicate FirstSession(sessions: seq<PendingSession>, id: string, i: nat) {
    i < |sessions| && sessions[i].id == id && forall k :: 0 <= k < i ==> sessions[k].id != id
  }

  ghost predicate FirstClient(clients: seq<Client>, id: string, i: nat) {
    i < |clients| && clients[i].id == id && forall k :: 0 <= k < i ==> clients[k].id != id
  }

  function LiveCodes(cfg: Config, now: int): seq<PendingPairCode> {
    Filter(cfg.codes, (p: PendingPairCode) => p.expiresAt > now)
  }

  function KeptSessions(cfg: Config, now: int): seq<PendingSession> {
    Filter(cfg.sessions, (s: PendingSession) => s.expiresAt > now || s.status == "approved")
  }

  lemma PruningMeans(cfg: Config, now: int)
    ensures Filter(cfg.codes, CodeLive(now)) == LiveCodes(cfg, now)
    ensures Filter(cfg.sessions, SessionLive(now)) == KeptSessions(cfg, now)
  {
    FilterSame(cfg.codes, CodeLive(now), (p: PendingPairCode) => p.expiresAt > now);
    FilterSame(cfg.sessions, SessionLive(now), (s: PendingSession) => s.expiresAt > now || s.status == "approved");
  }

  /** A session of three minutes, counted from before the store is opened; expired codes and sessions go. */
  lemma CreateSessionDoes(keys: Keys, cfg: Config, req: Request)
    requires req.CreateSession?
    ensures var (after, reply) := Answer(keys, cfg, req, Works);
      var expiry := req.t0 + 180 * 1_000_000_000;
      if Blank(req.clientName) || Blank(req.clientType) then after == cfg && reply == Failed(MissingNames)
      else
        && reply == SessionIs(req.newID, req.digits, "pending", "", "", expiry, [])
        && after == cfg.(
             codes := LiveCodes(cfg, req.t1),
             sessions := KeptSessions(cfg, req.t2)
               + [PendingSession(req.newID, req.digits, TrimSpace(req.clientName), TrimSpace(req.clientType), "pending",
                                 "", "", [], expiry)])
  {
    hide TrimSpace, Filter, Early, Blank;
    EarlyMeans(keys, req);
    PruningMeans(cfg, req.t1);
    PruningMeans(cfg, req.t2);
  }

  /** The first session with the id, as it is stored, unless it has expired. */
  lemma GetSessionDoes(keys: Keys, cfg: Config, req: Request, i: nat)
    requires req.GetSession?
    ensures var (after, reply) := Answer(keys, cfg, req, Works);
      var id := TrimSpace(req.sessionID);
      && after == cfg
      && ((forall s :: s in cfg.sessions ==> s.id != id) ==> reply == Failed(SessionNotFound))
      && (FirstSession(cfg.sessions, id, i) ==>
            var s := cfg.sessions[i];
            reply == if s.expiresAt <= req.t0 then Failed(SessionExpired)
                     else SessionIs(s.id, s.code, s.status, s.token, s.clientID, s.expiresAt, s.scopes))
  {
    hide TrimSpace, First;
    FindSession(cfg.sessions, TrimSpace(req.sessionID), i);
  }

  lemma FindSession(sessions: seq<PendingSession>, id: string, i: nat)
    ensures (forall s :: s in sessions ==> s.id != id) ==> First(sessions, SessionIDIs(id)) == |sessions|
    ensures FirstSession(sessions, id, i) ==> First(sessions, SessionIDIs(id)) == i
  {
    if FirstSession(sessions, id, i) { FirstIs(sessions, SessionIDIs(id), i); }
    if forall s :: s in sessions ==> s.id != id { FirstIs(sessions, SessionIDIs(id), |sessions|); }
  }

  lemma FindClient(clients: seq<Client>, id: string, i: nat)
    ensures (forall c :: c in clients ==> c.id != id) ==> First(clients, ClientIDIs(id)) == |clients|
    ensures FirstClient(clients, id, i) ==> First(clients, ClientIDIs(id)) == i
  {
    if FirstClient(clients, id, i) { FirstIs(clients, ClientIDIs(id), i); }
    if forall c :: c in clients ==> c.id != id { FirstIs(clients, ClientIDIs(id), |clients|); }
  }

  /** Everything but the scopes of the claims that a pairing or an approval signs. */
  ghost predicate SignedFor(claims: TokenClaims, clientID: string, jti: string, now: int, ttl: int) {
    && claims.sub == clientID && claims.jti == jti
    && claims.issued == now / 1_000_000_000 && claims.expiry == (now + ttl) / 1_000_000_000
  }

  /**
   What a granted approval does: a client and a token of 24 hours with exactly the wanted scopes, in increasing order;
   the session becomes approved in place and carries them, and is answered.
  */
  ghost predicate Approval(keys: Keys, cfg: Config, req: Request, i: nat, claims: TokenClaims, after: Config,
                           reply: Reply)
    requires req.ApproveSession? && i < |KeptSessions(cfg, req.t0)|
  {
    var sessions := KeptSessions(cfg, req.t0);
    var s := sessions[i];
    var expiry := claims.expiry * 1_000_000_000;
    && SignedFor(claims, req.newID, req.newJTI, req.t1, 24 * 3600 * 1_000_000_000)
    && StrictlySorted(claims.scopes, Less) && (forall x :: x in claims.scopes <==> Wants(req.scopes, x))
    && reply == SessionIs(s.id, s.code, "approved", Seal(keys, claims), req.newID, expiry, claims.scopes)
    && after == cfg.(
         clients := cfg.clients
           + [Client(req.newID, s.clientName, s.clientType, claims.scopes, req.newJTI, req.t0, req.t0, false)],
         sessions := sessions[i := PendingSession(s.id, s.code, s.clientName, s.clientType, "approved",
                                                  Seal(keys, claims), req.newID, claims.scopes, expiry)])
  }

  lemma ApproveSessionDoes(keys: Keys, cfg: Config, req: Request, i: nat)
    requires req.ApproveSession?
    ensures var (after, reply) := Answer(keys, cfg, req, Works);
      var (id, sessions) := (TrimSpace(req.sessionID), KeptSessions(cfg, req.t0));
      if Exceeds(req.scopes, req.approver.scopes) then after == cfg && reply == Failed(Forbidden)
      else
        && ((forall s :: s in sessions ==> s.id != id) ==> after == cfg && reply == Failed(SessionNotFound))
        && (FirstSession(sessions, id, i) ==>
              if sessions[i].expiresAt <= req.t0 then after == cfg && reply == Failed(SessionExpired)
              else exists claims :: Approval(keys, cfg, req, i, claims, after, reply))
  {
    hide TrimSpace, First, Filter, Early, Clean, Requested, Seal, Wants, Exceeds, KeptSessions;
    EarlyMeans(keys, req);
    PruningMeans(cfg, req.t0);
    FindSession(KeptSessions(cfg, req.t0), TrimSpace(req.sessionID), i);
    ApprovedScopes(req);
    var (after, reply) := Answer(keys, cfg, req, Works);
    if !Exceeds(req.scopes, req.approver.scopes) && FirstSession(KeptSessions(cfg, req.t0), TrimSpace(req.sessionID), i)
       && KeptSessions(cfg, req.t0)[i].expiresAt > req.t0 {
      assert Approval(keys, cfg, req, i, DelegatedClaims(req), after, reply);
    }
  }

  lemma ApprovedScopes(req: Request)
    requires req.ApproveSession?
    ensures var scopes := DelegatedClaims(req).scopes;
      && scopes == Requested(req.scopes) && StrictlySorted(scopes, Less)
      && forall x :: x in scopes <==> Wants(req.scopes, x)
  {
    hide Clean, Wants, Less;
    AuthRuns.RequestedIsClean(req.scopes);
    CleanMeaning(Requested(req.scopes));
    RequestedMeans(req.scopes);
  }

  /** The server's name is set; a new code of two minutes is made only if no client is active and no code is live. */
  lemma EnsureBootstrapDoes(keys: Keys, cfg: Config, req: Request)
    requires req.EnsureBootstrap?
    ensures var (after, reply) := Answer(keys, cfg, req, Works);
      var live := LiveCodes(cfg, req.t0);
      var named := cfg.(serverName := req.serverName, codes := live);
      if exists c :: c in cfg.clients && !c.revoked then after == named && reply == Bootstrapped("")
      else if live != [] then after == named && reply == Bootstrapped(live[0].code)
      else
        && reply == Bootstrapped(req.newCode)
        && after == named.(
             codes := [PendingPairCode(req.newCode, ["read", "send", "attach"], req.t1 + 120 * 1_000_000_000)])
  {
    hide Filter, First;
    PruningMeans(cfg, req.t0);
    var i := First(cfg.clients, Active());
    if i < |cfg.clients| { assert Active()(cfg.clients[i]) && cfg.clients[i] in cfg.clients; }
    if c :| c in cfg.clients && !c.revoked {
      var k :| 0 <= k < |cfg.clients| && cfg.clients[k] == c;
      assert Active()(cfg.clients[k]);
    }
  }

  /** What a new code allows: the mentioned scopes, or all three when the list is empty, in increasing order. */
  ghost predicate CodeScopes(scopes: seq<string>, asked: seq<string>) {
    && StrictlySorted(scopes, Less)
    && forall x :: x in scopes <==>
         if asked == [] then x == "read" || x == "send" || x == "attach" else Mentions(asked, x)
  }

  /** A code of the asked lifetime, or of two minutes if none is asked; it is answered as it is stored. */
  lemma GeneratePairingCodeDoes(keys: Keys, cfg: Config, req: Request)
    requires req.GeneratePairingCode?
    ensures var (after, reply) := Answer(keys, cfg, req, Works);
      && reply.Issued? && reply.newCode == req.newCode && CodeScopes(reply.scopes, req.scopes)
      && reply.expiresAt == req.t0 + (if req.ttl > 0 then req.ttl else 120 * 1_000_000_000)
      && after == cfg.(codes := LiveCodes(cfg, req.t1) + [PendingPairCode(req.newCode, reply.scopes, reply.expiresAt)])
  {
    hide Filter, Clean, CodeScopes;
    PruningMeans(cfg, req.t1);
    NewCodeScopes(req.scopes);
  }

  lemma NewCodeScopes(asked: seq<string>)
    ensures CodeScopes(Clean(if asked == [] then DEFAULT_SCOPES else asked), asked)
  {
    hide Clean, Less, TrimSpace;
    CleanMeaning(if asked == [] then DEFAULT_SCOPES else asked);
    forall x | x == "read" || x == "send" || x == "attach" ensures TrimSpace(x) == x { TrimOfTrimmed(x); }
    if asked == [] {
      forall x ensures Mentions(DEFAULT_SCOPES, x) <==> x == "read" || x == "send" || x == "attach" {
        assert x in DEFAULT_SCOPES <==> x == "read" || x == "send" || x == "attach";
      }
    }
  }

  /** `i` is the first position with that code. */
  ghost predicate FirstCode(codes: seq<PendingPairCode>, code: string, i: nat) {
    i < |codes| && codes[i].code == code && forall k :: 0 <= k < i ==> codes[k].code != code
  }

  /** What a pairing does: the code goes, and a client and a token of 90 days come with the code's scopes. */
  ghost predicate Pairing(keys: Keys, cfg: Config, req: Request, i: nat, claims: TokenClaims, after: Config,
                          reply: Reply)
    requires req.Pair? && i < |LiveCodes(cfg, req.t0)|
  {
    var live := LiveCodes(cfg, req.t0);
    && SignedFor(claims, req.newID, req.newJTI, req.t1, 90 * 24 * 3600 * 1_000_000_000)
    && StrictlySorted(claims.scopes, Less) && (forall x :: x in claims.scopes <==> Mentions(live[i].scopes, x))
    && reply == Paired(Seal(keys, claims), req.newID, claims.expiry * 1_000_000_000, live[i].scopes)
    && after == cfg.(
         codes := live[..i] + live[i + 1..],
         clients := cfg.clients
           + [Client(req.newID, TrimSpace(req.clientName), TrimSpace(req.clientType), live[i].scopes, req.newJTI,
                     req.t0, req.t0, false)])
  }

  lemma PairDoes(keys: Keys, cfg: Config, req: Request, i: nat)
    requires req.Pair?
    ensures var (after, reply) := Answer(keys, cfg, req, Works);
      var (typed, live) := (ToUpper(TrimSpace(req.code)), LiveCodes(cfg, req.t0));
      if Blank(req.code) || Blank(req.clientName) || Blank(req.clientType)
      then after == cfg && reply == Failed(InvalidCode)
      else
        && ((forall p :: p in live ==> p.code != typed) ==> after == cfg && reply == Failed(InvalidCode))
        && (FirstCode(live, typed, i) ==> exists claims :: Pairing(keys, cfg, req, i, claims, after, reply))
  {
    hide TrimSpace, ToUpper, First, Filter, Early, Clean, Seal, Blank, LiveCodes, Mentions, Less;
    EarlyMeans(keys, req);
    PruningMeans(cfg, req.t0);
    var (typed, live) := (ToUpper(TrimSpace(req.code)), LiveCodes(cfg, req.t0));
    if forall p :: p in live ==> p.code != typed { FirstIs(live, CodeIs(typed), |live|); }
    var (after, reply) := Answer(keys, cfg, req, Works);
    if FirstCode(live, typed, i) {
      FirstIs(live, CodeIs(typed), i);
      CleanMeaning(live[i].scopes);
      if !Blank(req.code) && !Blank(req.clientName) && !Blank(req.clientType) {
        assert Pairing(keys, cfg, req, i, PairedClaims(req, live[i]), after, reply);
      }
    }
  }

  /** `i` is the first client that the claims name by id and token id and that is not revoked. */
  ghost predicate FirstSpeaker(clients: seq<Client>, claims: TokenClaims, i: nat) {
    && i < |clients| && Speaks(clients[i], claims)
    && forall k :: 0 <= k < i ==> !Speaks(clients[k], claims)
  }

  predicate Speaks(c: Client, claims: TokenClaims) {
    c.id == claims.sub && c.tokenJTI == claims.jti && !c.revoked
  }

  /** The only change is the client's last-seen time. */
  lemma AuthenticateDoes(keys: Keys, cfg: Config, req: Request, claims: TokenClaims, i: nat)
    requires req.Authenticate?
    ensures var (after, reply) := Answer(keys, cfg, req, Works);
      && (AnsweredUnread(keys, req) ==> after == cfg && reply == Failed(Unauthorized))
      && (Signed(keys, TrimSpace(req.token), claims) && req.t0 < claims.expiry * SECOND ==>
           && ((forall c :: c in cfg.clients ==> !Speaks(c, claims)) ==> after == cfg && reply == Failed(Unauthorized))
           && (FirstSpeaker(cfg.clients, claims, i) ==>
                 var c := cfg.clients[i];
                 && reply == Authenticated(c.id, c.name, c.kind, c.scopes, claims)
                 && after == cfg.(clients := cfg.clients[i := c.(lastSeen := req.t1)])))
  {
    hide TrimSpace, First, Verify, Early, Signed;
    EarlyMeans(keys, req);
    VerifyMeans(keys, TrimSpace(req.token), req.t0, claims);
    if FirstSpeaker(cfg.clients, claims, i) { FirstIs(cfg.clients, SpeaksFor(claims), i); }
    if forall c :: c in cfg.clients ==> !Speaks(c, claims) {
      assert forall k :: 0 <= k < |cfg.clients| ==> cfg.clients[k] in cfg.clients;
      FirstIs(cfg.clients, SpeaksFor(claims), |cfg.clients|);
    }
  }

  /** The answer says whether a client has the id; the first such client is revoked and nothing else changes. */
  lemma RevokeClientDoes(keys: Keys, cfg: Config, req: Request, i: nat)
    requires req.RevokeClient?
    ensures var (after, reply) := Answer(keys, cfg, req, Works);
      var id := TrimSpace(req.clientID);
      && reply == Revoked(!Blank(req.clientID) && exists c :: c in cfg.clients && c.id == id)
      && (reply == Revoked(false) ==> after == cfg)
      && (!Blank(req.clientID) && FirstClient(cfg.clients, id, i) ==>
            after == cfg.(clients := cfg.clients[i := cfg.clients[i].(revoked := true)]))
  {
    hide TrimSpace, First, Early, Blank;
    EarlyMeans(keys, req);
    var id := TrimSpace(req.clientID);
    FindClient(cfg.clients, id, i);
    var j := First(cfg.clients, ClientIDIs(id));
    if j < |cfg.clients| { assert ClientIDIs(id)(cfg.clients[j]) && cfg.clients[j] in cfg.clients; }
  }

  lemma ListClientsDoes(keys: Keys, cfg: Config)
    ensures Answer(keys, cfg, ListClients, Works) == (cfg, Clients(cfg.clients))
  {
  }
}
