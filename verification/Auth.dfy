/**
 The auth service of internal/auth/pairing.go as functions: what each request does to the stored configuration
 and what it answers.  `AuthService` carries the requests out in place; `AuthRuns` proves what holds over whole runs.

 Clock readings, generated ids and generated codes are part of a request, one for each place the code asks for
 one.  Instants are nanoseconds.
*/
module Auth {
  import opened Basics
  import opened Text
  import opened Scopes
  import opened Tokens
  import opened Store

  const MINUTE: int := 60 * SECOND
  const HOUR: int := 60 * MINUTE
  const SESSION_TTL: int := 3 * MINUTE
  const PAIRING_TTL: int := 2 * MINUTE
  const CLIENT_TTL: int := 90 * 24 * HOUR
  const DELEGATED_TTL: int := 24 * HOUR
  const DEFAULT_SCOPES: seq<string> := ["read", "send", "attach"]
  const DELEGATED_SCOPES: seq<string> := ["read", "send"]

  datatype AuthError =
    MissingNames | InvalidCode | SessionExpired | SessionNotFound | Forbidden | Unauthorized | StoreFailed

  datatype Request =
    | CreateSession(clientName: string, clientType: string, newID: string, digits: string, t0: int, t1: int, t2: int)
    | GetSession(sessionID: string, t0: int)
    | ApproveSession(sessionID: string, approver: TokenClaims, scopes: seq<string>,
                     newID: string, newJTI: string, t0: int, t1: int)
    | EnsureBootstrap(serverName: string, newCode: string, t0: int, t1: int)
    | GeneratePairingCode(ttl: int, scopes: seq<string>, newCode: string, t0: int, t1: int)
    | Pair(code: string, clientName: string, clientType: string, newID: string, newJTI: string, t0: int, t1: int)
    | Authenticate(token: string, t0: int, t1: int)
    | ListClients
    | RevokeClient(clientID: string)

  datatype Reply =
    | SessionIs(id: string, code: string, status: string, token: string, clientID: string,
                expiresAt: int, scopes: seq<string>)
    | Bootstrapped(created: string)
    | Issued(newCode: string, expiresAt: int, scopes: seq<string>)
    | Paired(token: string, clientID: string, expiresAt: int, scopes: seq<string>)
    | Authenticated(clientID: string, name: string, kind: string, scopes: seq<string>, claims: TokenClaims)
    | Clients(clients: seq<Client>)
    | Revoked(found: bool)
    | Failed(error: AuthError)

  // ---------------------------------------------------------------- lookups and pruning

  function CodeLive(now: int): PendingPairCode -> bool {
    (p: PendingPairCode) => p.expiresAt > now
  }

  function SessionLive(now: int): PendingSession -> bool {
    (s: PendingSession) => s.expiresAt > now || s.status == "approved"
  }

  function CodeIs(code: string): PendingPairCode -> bool {
    (p: PendingPairCode) => p.code == code
  }

  function SessionIDIs(id: string): PendingSession -> bool {
    (s: PendingSession) => s.id == id
  }

  function ClientIDIs(id: string): Client -> bool {
    (c: Client) => c.id == id
  }

  function Active(): Client -> bool {
    (c: Client) => !c.revoked
  }

  /** The stored client a token's claims speak for. */
  function SpeaksFor(claims: TokenClaims): Client -> bool {
    (c: Client) => c.id == claims.sub && c.tokenJTI == claims.jti && !c.revoked
  }

  function PruneCodes(cfg: Config, now: int): Config {
    cfg.(codes := Filter(cfg.codes, CodeLive(now)))
  }

  function PruneSessions(cfg: Config, now: int): Config {
    cfg.(sessions := Filter(cfg.sessions, SessionLive(now)))
  }

  /** strings.ToUpper as far as a pairing code can tell: just these characters have an upper case within A-Z. */
  function UpperChar(c: char): char {
    if 'a' <= c <= 'z' then 'A' + (c - 'a')
    else if c == '\U{0131}' then 'I'
    else if c == '\U{017F}' then 'S'
    else c
  }

  function ToUpper(s: string): (r: string)
    ensures |r| == |s|
    ensures forall i :: 0 <= i < |s| ==> r[i] == UpperChar(s[i])
  {
    seq(|s|, i requires 0 <= i < |s| => UpperChar(s[i]))
  }

  function TypedCode(code: string): string {
    ToUpper(TrimSpace(code))
  }

  function Requested(scopes: seq<string>): seq<string> {
    if Clean(scopes) == [] then DELEGATED_SCOPES else Clean(scopes)
  }

  function SessionReply(s: PendingSession): Reply {
    SessionIs(s.id, s.code, s.status, s.token, s.clientID, s.expiresAt, s.scopes)
  }

  // ---------------------------------------------------------------- one request

  /** Requests answered before the store is consulted. */
  function Early(keys: Keys, req: Request): Option<Reply> {
    match req
    case CreateSession(name, kind, _, _, _, _, _) =>
      if TrimSpace(name) == "" || TrimSpace(kind) == "" then Some(Failed(MissingNames)) else None
    case ApproveSession(_, approver, scopes, _, _, _, _) =>
      if SetOf(Requested(scopes)) <= SetOf(approver.scopes) then None else Some(Failed(Forbidden))
    case Pair(code, name, kind, _, _, _, _) =>
      if TypedCode(code) == "" || TrimSpace(name) == "" || TrimSpace(kind) == "" then Some(Failed(InvalidCode))
      else None
    case Authenticate(token, t0, _) =>
      if Verify(keys, TrimSpace(token), t0).Err? then Some(Failed(Unauthorized)) else None
    case RevokeClient(id) =>
      if TrimSpace(id) == "" then Some(Revoked(false)) else None
    case _ => None
  }

  predicate ReadOnly(req: Request) {
    req.GetSession? || req.ListClients?
  }

  function NewSession(req: Request): PendingSession
    requires req.CreateSession?
  {
    PendingSession(req.newID, req.digits, TrimSpace(req.clientName), TrimSpace(req.clientType), "pending",
                   "", "", [], req.t0 + SESSION_TTL)
  }

  function DelegatedClaims(req: Request): TokenClaims
    requires req.ApproveSession?
  {
    MintClaims(req.newJTI, req.newID, Requested(req.scopes), DELEGATED_TTL, req.t1)
  }

  function Approve(keys: Keys, s: PendingSession, req: Request): PendingSession
    requires req.ApproveSession?
  {
    var claims := DelegatedClaims(req);
    s.(status := "approved", token := Seal(keys, claims), clientID := req.newID,
       scopes := Requested(req.scopes), expiresAt := claims.expiry * SECOND)
  }

  function PairedClaims(req: Request, pending: PendingPairCode): TokenClaims
    requires req.Pair?
  {
    MintClaims(req.newJTI, req.newID, pending.scopes, CLIENT_TTL, req.t1)
  }

  function GeneratedCode(req: Request): PendingPairCode
    requires req.GeneratePairingCode?
  {
    PendingPairCode(req.newCode,
                    Clean(if req.scopes == [] then DEFAULT_SCOPES else req.scopes),
                    req.t0 + if req.ttl <= 0 then PAIRING_TTL else req.ttl)
  }

  /** What the closure passed to the store does: the new configuration and the answer, or an error. */
  function Closure(keys: Keys, cfg: Config, req: Request): Result<(Config, Reply), AuthError> {
    match req
    case CreateSession(_, _, _, _, _, t1, t2) =>
      var s := NewSession(req);
      var pruned := PruneSessions(PruneCodes(cfg, t1), t2);
      Ok((pruned.(sessions := pruned.sessions + [s]), SessionReply(s)))
    case GetSession(sessionID, t0) =>
      var i := First(cfg.sessions, SessionIDIs(TrimSpace(sessionID)));
      if i == |cfg.sessions| then Err(SessionNotFound)
      else if cfg.sessions[i].expiresAt <= t0 then Err(SessionExpired)
      else Ok((cfg, SessionReply(cfg.sessions[i])))
    case ApproveSession(sessionID, _, _, newID, newJTI, t0, _) =>
      var pruned := PruneSessions(cfg, t0);
      var i := First(pruned.sessions, SessionIDIs(TrimSpace(sessionID)));
      if i == |pruned.sessions| then Err(SessionNotFound)
      else if pruned.sessions[i].expiresAt <= t0 then Err(SessionExpired)
      else
        var s := pruned.sessions[i];
        var client := Client(newID, s.clientName, s.clientType, Requested(req.scopes), newJTI, t0, t0, false);
        var approved := Approve(keys, s, req);
        Ok((pruned.(clients := pruned.clients + [client], sessions := pruned.sessions[i := approved]),
            SessionReply(approved)))
    case EnsureBootstrap(serverName, newCode, t0, t1) =>
      var pruned := PruneCodes(cfg.(serverName := serverName), t0);
      if First(pruned.clients, Active()) < |pruned.clients| then Ok((pruned, Bootstrapped("")))
      else if pruned.codes != [] then Ok((pruned, Bootstrapped(pruned.codes[0].code)))
      else Ok((pruned.(codes := pruned.codes + [PendingPairCode(newCode, DEFAULT_SCOPES, t1 + PAIRING_TTL)]),
               Bootstrapped(newCode)))
    case GeneratePairingCode(_, _, _, _, t1) =>
      var p := GeneratedCode(req);
      var pruned := PruneCodes(cfg, t1);
      Ok((pruned.(codes := pruned.codes + [p]), Issued(p.code, p.expiresAt, p.scopes)))
    case Pair(code, name, kind, newID, newJTI, t0, _) =>
      var pruned := PruneCodes(cfg, t0);
      var i := First(pruned.codes, CodeIs(TypedCode(code)));
      if i == |pruned.codes| then Err(InvalidCode)
      else
        var pending := pruned.codes[i];
        var claims := PairedClaims(req, pending);
        var client := Client(newID, TrimSpace(name), TrimSpace(kind), pending.scopes, newJTI, t0, t0, false);
        Ok((pruned.(codes := pruned.codes[..i] + pruned.codes[i + 1..], clients := pruned.clients + [client]),
            Paired(Seal(keys, claims), newID, claims.expiry * SECOND, pending.scopes)))
    case Authenticate(token, t0, t1) =>
      (match Verify(keys, TrimSpace(token), t0)
       case Err(_) => Err(Unauthorized)
       case Ok(claims) =>
         var i := First(cfg.clients, SpeaksFor(claims));
         if i == |cfg.clients| then Err(Unauthorized)
         else
           var c := cfg.clients[i].(lastSeen := t1);
           Ok((cfg.(clients := cfg.clients[i := c]), Authenticated(c.id, c.name, c.kind, c.scopes, claims))))
    case ListClients => Ok((cfg, Clients(cfg.clients)))
    case RevokeClient(id) =>
      var i := First(cfg.clients, ClientIDIs(TrimSpace(id)));
      if i == |cfg.clients| then Ok((cfg, Revoked(false)))
      else Ok((cfg.(clients := cfg.clients[i := cfg.clients[i].(revoked := true)]), Revoked(true)))
  }

  /** How the store behaves during a request: it cannot be read, it cannot be saved, or all is well. */
  datatype Io = Works | CannotRead | CannotSave

  function StoreFailure(req: Request): Reply {
    if req.Authenticate? then Failed(Unauthorized) else Failed(StoreFailed)
  }

  /** A request against a stored configuration: the configuration afterwards and the answer. */
  function Answer(keys: Keys, cfg: Config, req: Request, io: Io): (Config, Reply) {
    match Early(keys, req)
    case Some(reply) => (cfg, reply)
    case None =>
      if io == CannotRead then (cfg, StoreFailure(req))
      else
        match Closure(keys, cfg, req)
        case Err(e) => (cfg, Failed(e))
        case Ok((next, reply)) =>
          if io == CannotSave && !ReadOnly(req) then (cfg, StoreFailure(req)) else (next, reply)
  }

  // ---------------------------------------------------------------- generated codes

  const CODE_ALPHABET: string := "ABCDEFGHJKLMNPQRSTUVWXYZ23456789"

  function Spell(alphabet: string, raw: seq<Base64.Byte>): (s: string)
    requires alphabet != ""
    ensures |s| == |raw|
    ensures forall i :: 0 <= i < |raw| ==> s[i] == alphabet[raw[i] as int % |alphabet|]
  {
    seq(|raw|, i requires 0 <= i < |raw| => alphabet[raw[i] as int % |alphabet|])
  }

  /** The builder loop shared by `randomCode` and `randomDigits`, over the random bytes drawn. */
  method RandomText(alphabet: string, raw: seq<Base64.Byte>) returns (s: string)
    requires alphabet != ""
    ensures s == Spell(alphabet, raw)
  {
    s := "";
    var i := 0;
    while i < |raw|
      invariant 0 <= i <= |raw|
      invariant s == Spell(alphabet, raw)[..i]
    {
      s := s + [alphabet[raw[i] as int % |alphabet|]];
      i := i + 1;
    }
  }

  /** A generated code is typed back as itself, in upper or lower case and with spaces around it. */
  lemma GeneratedCodeCanBeTyped(raw: seq<Base64.Byte>, left: string, right: string, typed: string)
    requires raw != [] && |typed| == |raw|
    requires forall c :: c in left + right ==> IsSpace(c)
    requires forall i :: 0 <= i < |raw| ==>
      var c := Spell(CODE_ALPHABET, raw)[i]; typed[i] == c || ('A' <= c <= 'Z' && typed[i] == c - 'A' + 'a')
    ensures TypedCode(left + typed + right) == Spell(CODE_ALPHABET, raw)
  {
    hide TrimSpace;
    var code := Spell(CODE_ALPHABET, raw);
    SpellsUpper(raw);
    forall i | 0 <= i < |raw| ensures UpperChar(typed[i]) == code[i] && !IsSpace(typed[i]) {
      TypedChar(code[i], typed[i]);
    }
    hide Spell, UpperChar, IsSpace;
    TrimAround(left, typed, right);
  }

  lemma TypedChar(c: char, typed: char)
    requires 'A' <= c <= 'Z' || '2' <= c <= '9'
    requires typed == c || ('A' <= c <= 'Z' && typed == c - 'A' + 'a')
    ensures UpperChar(typed) == c && !IsSpace(typed)
  {
  }

  lemma SpellsUpper(raw: seq<Base64.Byte>)
    ensures forall c :: c in Spell(CODE_ALPHABET, raw) ==> 'A' <= c <= 'Z' || '2' <= c <= '9'
  {
    var s := Spell(CODE_ALPHABET, raw);
    forall i | 0 <= i < |s| ensures 'A' <= s[i] <= 'Z' || '2' <= s[i] <= '9' {
      AlphabetIsUpper(raw[i] as int % |CODE_ALPHABET|);
    }
  }

  lemma AlphabetIsUpper(i: nat)
    requires i < |CODE_ALPHABET|
    ensures 'A' <= CODE_ALPHABET[i] <= 'Z' || '2' <= CODE_ALPHABET[i] <= '9'
  {
  }
}
