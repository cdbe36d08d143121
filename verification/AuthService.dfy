/**
 The auth service as an object over a file store: each method loads a configuration, edits that copy in place,
 and saves it.  Every method is proved to do exactly what `Auth.Answer` says, under every way the store can fail.
*/
module AuthService {
  import opened Basics
  import opened Text
  import opened Scopes
  import opened Tokens
  import opened Store
  import opened Auth

  /** A decoded configuration, as the closures edit it. */
  class Draft {
    var serverName: string
    var clients: seq<Client>
    var webhooks: seq<Webhook>
    var codes: seq<PendingPairCode>
    var sessions: seq<PendingSession>
    var lastWatchRowID: int

    constructor (cfg: Config)
      ensures Value() == cfg
    {
      serverName, clients, webhooks := cfg.serverName, cfg.clients, cfg.webhooks;
      codes, sessions, lastWatchRowID := cfg.codes, cfg.sessions, cfg.lastWatchRowID;
    }

    function Value(): Config
      reads this
    {
      Config(serverName, clients, webhooks, codes, sessions, lastWatchRowID)
    }

    method PruneExpiredCodes(now: int)
      modifies this
      ensures Value() == PruneCodes(old(Value()), now)
    {
      var slots := new PendingPairCode[|codes|](i requires 0 <= i < |codes| reads this => codes[i]);
      assert slots[..] == codes;
      var kept := Compact(slots, CodeLive(now));
      codes := slots[..kept];
    }

    method PruneExpiredSessions(now: int)
      modifies this
      ensures Value() == PruneSessions(old(Value()), now)
    {
      var slots := new PendingSession[|sessions|](i requires 0 <= i < |sessions| reads this => sessions[i]);
      assert slots[..] == sessions;
      var kept := Compact(slots, SessionLive(now));
      sessions := slots[..kept];
    }
  }

  /** The disk and the answer after a request are those of `Answer`. */
  ghost predicate Outcome(keys: Keys, before: Disk, after: Disk, req: Request, readable: bool, done: nat,
                          reply: Reply)
  {
    match Load(before, readable)
    case Err(_) => after == before && reply == Answer(keys, EMPTY, req, CannotRead).1
    case Ok(cfg) =>
      var (next, expected) := Answer(keys, cfg, req, if done == |SAVE_STEPS| then Works else CannotSave);
      reply == expected && Load(after, true) == Ok(next)
  }

  lemma AnsweredEarly(keys: Keys, d: Disk, req: Request, readable: bool, done: nat, reply: Reply)
    requires Early(keys, req) == Some(reply)
    ensures Outcome(keys, d, d, req, readable, done, reply)
  {
    hide Early, Closure;
  }

  lemma NotRead(keys: Keys, d: Disk, req: Request, readable: bool, done: nat)
    requires Early(keys, req) == None && Load(d, readable).Err?
    ensures Outcome(keys, d, d, req, readable, done, StoreFailure(req))
  {
    hide Early, Closure;
  }

  lemma ClosureRefused(keys: Keys, d: Disk, req: Request, readable: bool, done: nat, e: AuthError)
    requires Early(keys, req) == None && Load(d, readable).Ok?
    requires Closure(keys, Load(d, readable).value, req) == Err(e)
    ensures Outcome(keys, d, d, req, readable, done, Failed(e))
  {
    hide Early, Closure;
  }

  lemma ClosureRead(keys: Keys, d: Disk, req: Request, readable: bool, reply: Reply)
    requires Early(keys, req) == None && Load(d, readable).Ok? && ReadOnly(req)
    requires Closure(keys, Load(d, readable).value, req) == Ok((Load(d, readable).value, reply))
    ensures Outcome(keys, d, d, req, readable, 0, reply)
  {
    hide Early, Closure;
  }

  /** A closure that ran to its end: saved in full, or not at all and reported as a store failure. */
  lemma ClosureSaved(keys: Keys, before: Disk, after: Disk, req: Request, readable: bool, done: nat, next: Config,
                     reply: Reply)
    requires Early(keys, req) == None && Load(before, readable).Ok? && !ReadOnly(req)
    requires Closure(keys, Load(before, readable).value, req) == Ok((next, reply))
    requires after.path == if done == |SAVE_STEPS| then Text(next) else before.path
    ensures Outcome(keys, before, after, req, readable, done, if done == |SAVE_STEPS| then reply else StoreFailure(req))
  {
    hide Early, Closure;
  }

  class Service {
    const store: FileStore
    const keys: Keys

    constructor (store: FileStore, keys: Keys)
      ensures this.store == store && this.keys == keys
    {
      this.store, this.keys := store, keys;
    }

    method CreateSession(clientName: string, clientType: string, newID: string, digits: string,
                         t0: int, t1: int, t2: int, readable: bool, done: nat)
      returns (reply: Reply)
      requires done <= |SAVE_STEPS|
      modifies store
      ensures Outcome(keys, old(store.disk), store.disk,
                      Request.CreateSession(clientName, clientType, newID, digits, t0, t1, t2), readable, done, reply)
    {
      hide Outcome, Answer, Saving, Load, TrimSpace, Filter, First, Seal, Clean, Unix, Verify, TypedCode;
      ghost var req, disk := Request.CreateSession(clientName, clientType, newID, digits, t0, t1, t2), store.disk;
      var name, kind := TrimSpace(clientName), TrimSpace(clientType);
      if name == "" || kind == "" {
        AnsweredEarly(keys, disk, req, readable, done, Failed(MissingNames));
        return Failed(MissingNames);
      }
      var session := PendingSession(newID, digits, name, kind, "pending", "", "", [], t0 + SESSION_TTL);
      var loaded := store.LoadLocked(readable);
      if loaded.Err? {
        NotRead(keys, disk, req, readable, done);
        return Failed(StoreFailed);
      }
      var cfg := new Draft(loaded.value);
      cfg.PruneExpiredCodes(t1);
      cfg.PruneExpiredSessions(t2);
      cfg.sessions := cfg.sessions + [session];
      var saved := store.SaveLocked(cfg.Value(), done);
      ClosureSaved(keys, disk, store.disk, req, readable, done, cfg.Value(), SessionReply(session));
      if !saved {
        return Failed(StoreFailed);
      }
      return SessionReply(session);
    }

    method GetSession(sessionID: string, t0: int, readable: bool) returns (reply: Reply)
      ensures Outcome(keys, store.disk, store.disk, Request.GetSession(sessionID, t0), readable, 0, reply)
    {
      hide Outcome, Answer, Saving, Load, TrimSpace, Filter, First, Seal, Clean, Unix, Verify, TypedCode;
      ghost var req, disk := Request.GetSession(sessionID, t0), store.disk;
      var id := TrimSpace(sessionID);
      var loaded := store.LoadLocked(readable);
      if loaded.Err? {
        NotRead(keys, disk, req, readable, 0);
        return Failed(StoreFailed);
      }
      var sessions := loaded.value.sessions;
      var i := 0;
      while i < |sessions|
        invariant 0 <= i <= |sessions|
        invariant forall k :: 0 <= k < i ==> sessions[k].id != id
      {
        var pending := sessions[i];
        if pending.id != id {
          i := i + 1;
          continue;
        }
        FirstIs(sessions, SessionIDIs(id), i);
        if pending.expiresAt <= t0 {
          ClosureRefused(keys, disk, req, readable, 0, SessionExpired);
          return Failed(SessionExpired);
        }
        ClosureRead(keys, disk, req, readable, SessionReply(pending));
        return SessionReply(pending);
      }
      FirstIs(sessions, SessionIDIs(id), i);
      ClosureRefused(keys, disk, req, readable, 0, SessionNotFound);
      return Failed(SessionNotFound);
    }

    method ApproveSession(sessionID: string, approver: TokenClaims, scopes: seq<string>, newID: string, newJTI: string,
                          t0: int, t1: int, readable: bool, done: nat)
      returns (reply: Reply)
      requires done <= |SAVE_STEPS|
      modifies store
      ensures Outcome(keys, old(store.disk), store.disk,
                      Request.ApproveSession(sessionID, approver, scopes, newID, newJTI, t0, t1), readable, done, reply)
    {
      hide Outcome, Answer, Saving, Load, TrimSpace, Filter, First, Seal, Clean, Unix, Verify, TypedCode;
      ghost var req, disk := Request.ApproveSession(sessionID, approver, scopes, newID, newJTI, t0, t1), store.disk;
      var id := TrimSpace(sessionID);
      var requested := CleanScopes(scopes);
      if |requested| == 0 {
        requested := ["read", "send"];
      }
      var allowed := ScopesSubset(requested, approver.scopes);
      if !allowed {
        AnsweredEarly(keys, disk, req, readable, done, Failed(Forbidden));
        return Failed(Forbidden);
      }
      var loaded := store.LoadLocked(readable);
      if loaded.Err? {
        NotRead(keys, disk, req, readable, done);
        return Failed(StoreFailed);
      }
      var cfg := new Draft(loaded.value);
      cfg.PruneExpiredSessions(t0);
      var i := 0;
      while i < |cfg.sessions| && cfg.sessions[i].id != id
        invariant 0 <= i <= |cfg.sessions|
        invariant forall k :: 0 <= k < i ==> cfg.sessions[k].id != id
      {
        i := i + 1;
      }
      FirstIs(cfg.sessions, SessionIDIs(id), i);
      if i == |cfg.sessions| {
        ClosureRefused(keys, disk, req, readable, done, SessionNotFound);
        return Failed(SessionNotFound);
      }
      var session := cfg.sessions[i];
      if session.expiresAt <= t0 {
        ClosureRefused(keys, disk, req, readable, done, SessionExpired);
        return Failed(SessionExpired);
      }
      var claims := MintClaims(newJTI, newID, requested, DELEGATED_TTL, t1);
      var token := Seal(keys, claims);
      cfg.clients := cfg.clients
        + [Client(newID, session.clientName, session.clientType, requested, newJTI, t0, t0, false)];
      session := session.(status := "approved", token := token, clientID := newID,
                          scopes := requested, expiresAt := claims.expiry * SECOND);
      cfg.sessions := cfg.sessions[i := session];
      assert Closure(keys, loaded.value, req) == Ok((cfg.Value(), SessionReply(session)));
      var saved := store.SaveLocked(cfg.Value(), done);
      ClosureSaved(keys, disk, store.disk, req, readable, done, cfg.Value(), SessionReply(session));
      if !saved {
        return Failed(StoreFailed);
      }
      return SessionReply(session);
    }

    method EnsureBootstrap(serverName: string, newCode: string, t0: int, t1: int, readable: bool, done: nat)
      returns (reply: Reply)
      requires done <= |SAVE_STEPS|
      modifies store
      ensures Outcome(keys, old(store.disk), store.disk,
                      Request.EnsureBootstrap(serverName, newCode, t0, t1), readable, done, reply)
    {
      hide Outcome, Answer, Saving, Load, TrimSpace, Filter, First, Seal, Clean, Unix, Verify, TypedCode;
      ghost var req, disk := Request.EnsureBootstrap(serverName, newCode, t0, t1), store.disk;
      var loaded := store.LoadLocked(readable);
      if loaded.Err? {
        NotRead(keys, disk, req, readable, done);
        return Failed(StoreFailed);
      }
      var cfg := new Draft(loaded.value);
      cfg.serverName := serverName;
      cfg.PruneExpiredCodes(t0);
      var created := "";
      var i := 0;
      while i < |cfg.clients| && cfg.clients[i].revoked
        invariant 0 <= i <= |cfg.clients|
        invariant forall k :: 0 <= k < i ==> cfg.clients[k].revoked
      {
        i := i + 1;
      }
      FirstIs(cfg.clients, Active(), i);
      if i == |cfg.clients| {
        if |cfg.codes| > 0 {
          created := cfg.codes[0].code;
        } else {
          created := newCode;
          cfg.codes := cfg.codes + [PendingPairCode(created, DEFAULT_SCOPES, t1 + PAIRING_TTL)];
        }
      }
      var saved := store.SaveLocked(cfg.Value(), done);
      ClosureSaved(keys, disk, store.disk, req, readable, done, cfg.Value(), Bootstrapped(created));
      if !saved {
        return Failed(StoreFailed);
      }
      return Bootstrapped(created);
    }

    method GeneratePairingCode(ttl: int, scopes: seq<string>, newCode: string, t0: int, t1: int, readable: bool,
                               done: nat)
      returns (reply: Reply)
      requires done <= |SAVE_STEPS|
      modifies store
      ensures Outcome(keys, old(store.disk), store.disk,
                      Request.GeneratePairingCode(ttl, scopes, newCode, t0, t1), readable, done, reply)
    {
      hide Outcome, Answer, Saving, Load, TrimSpace, Filter, First, Seal, Clean, Unix, Verify, TypedCode;
      ghost var req, disk := Request.GeneratePairingCode(ttl, scopes, newCode, t0, t1), store.disk;
      var lifetime, wanted := ttl, scopes;
      if lifetime <= 0 {
        lifetime := PAIRING_TTL;
      }
      if |wanted| == 0 {
        wanted := DEFAULT_SCOPES;
      }
      var cleaned := CleanScopes(wanted);
      var result := PendingPairCode(newCode, cleaned, t0 + lifetime);
      var loaded := store.LoadLocked(readable);
      if loaded.Err? {
        NotRead(keys, disk, req, readable, done);
        return Failed(StoreFailed);
      }
      var cfg := new Draft(loaded.value);
      cfg.PruneExpiredCodes(t1);
      cfg.codes := cfg.codes + [result];
      var saved := store.SaveLocked(cfg.Value(), done);
      ClosureSaved(keys, disk, store.disk, req, readable, done, cfg.Value(),
                   Issued(result.code, result.expiresAt, result.scopes));
      if !saved {
        return Failed(StoreFailed);
      }
      return Issued(result.code, result.expiresAt, result.scopes);
    }

    method Pair(code: string, clientName: string, clientType: string, newID: string, newJTI: string,
                t0: int, t1: int, readable: bool, done: nat)
      returns (reply: Reply)
      requires done <= |SAVE_STEPS|
      modifies store
      ensures Outcome(keys, old(store.disk), store.disk,
                      Request.Pair(code, clientName, clientType, newID, newJTI, t0, t1), readable, done, reply)
    {
      hide Outcome, Answer, Saving, Load, TrimSpace, Filter, First, Seal, Clean, Unix, Verify, TypedCode;
      ghost var req, disk := Request.Pair(code, clientName, clientType, newID, newJTI, t0, t1), store.disk;
      var typed, name, kind := TypedCode(code), TrimSpace(clientName), TrimSpace(clientType);
      if typed == "" || name == "" || kind == "" {
        AnsweredEarly(keys, disk, req, readable, done, Failed(InvalidCode));
        return Failed(InvalidCode);
      }
      var loaded := store.LoadLocked(readable);
      if loaded.Err? {
        NotRead(keys, disk, req, readable, done);
        return Failed(StoreFailed);
      }
      var cfg := new Draft(loaded.value);
      cfg.PruneExpiredCodes(t0);
      var index := -1;
      var i := 0;
      while i < |cfg.codes|
        invariant 0 <= i <= |cfg.codes|
        invariant index == -1
        invariant forall k :: 0 <= k < i ==> cfg.codes[k].code != typed
      {
        if cfg.codes[i].code == typed {
          index := i;
          break;
        }
        i := i + 1;
      }
      FirstIs(cfg.codes, CodeIs(typed), i);
      if index == -1 {
        ClosureRefused(keys, disk, req, readable, done, InvalidCode);
        return Failed(InvalidCode);
      }
      var pending := cfg.codes[index];
      cfg.codes := cfg.codes[..index] + cfg.codes[index + 1..];
      var claims := MintClaims(newJTI, newID, pending.scopes, CLIENT_TTL, t1);
      var token := Seal(keys, claims);
      cfg.clients := cfg.clients + [Client(newID, name, kind, pending.scopes, newJTI, t0, t0, false)];
      reply := Paired(token, newID, claims.expiry * SECOND, pending.scopes);
      assert Closure(keys, loaded.value, req) == Ok((cfg.Value(), reply));
      var saved := store.SaveLocked(cfg.Value(), done);
      ClosureSaved(keys, disk, store.disk, req, readable, done, cfg.Value(), reply);
      if !saved {
        return Failed(StoreFailed);
      }
    }

    method Authenticate(token: string, t0: int, t1: int, readable: bool, done: nat) returns (reply: Reply)
      requires done <= |SAVE_STEPS|
      modifies store
      ensures Outcome(keys, old(store.disk), store.disk, Request.Authenticate(token, t0, t1), readable, done, reply)
    {
      hide Outcome, Answer, Saving, Load, TrimSpace, Filter, First, Seal, Clean, Unix, Verify, TypedCode;
      ghost var req, disk := Request.Authenticate(token, t0, t1), store.disk;
      var verified := Verify(keys, TrimSpace(token), t0);
      if verified.Err? {
        AnsweredEarly(keys, disk, req, readable, done, Failed(Unauthorized));
        return Failed(Unauthorized);
      }
      var claims := verified.value;
      var loaded := store.LoadLocked(readable);
      if loaded.Err? {
        NotRead(keys, disk, req, readable, done);
        return Failed(Unauthorized);
      }
      var cfg := new Draft(loaded.value);
      var i := 0;
      while i < |cfg.clients|
        invariant 0 <= i <= |cfg.clients|
        invariant cfg.Value() == loaded.value
        invariant store.disk == old(store.disk)
        invariant forall k :: 0 <= k < i ==> !SpeaksFor(claims)(cfg.clients[k])
      {
        var client := cfg.clients[i];
        if client.id != claims.sub || client.tokenJTI != claims.jti || client.revoked {
          i := i + 1;
          continue;
        }
        FirstIs(cfg.clients, SpeaksFor(claims), i);
        client := client.(lastSeen := t1);
        cfg.clients := cfg.clients[i := client];
        var saved := store.SaveLocked(cfg.Value(), done);
        ClosureSaved(keys, disk, store.disk, req, readable, done, cfg.Value(),
                     Authenticated(client.id, client.name, client.kind, client.scopes, claims));
        if !saved {
          return Failed(Unauthorized);
        }
        return Authenticated(client.id, client.name, client.kind, client.scopes, claims);
      }
      FirstIs(cfg.clients, SpeaksFor(claims), i);
      ClosureRefused(keys, disk, req, readable, done, Unauthorized);
      return Failed(Unauthorized);
    }

    method HasScope(claims: TokenClaims, scope: string) returns (r: bool)
      ensures r <==> scope in claims.scopes
    {
      var i := 0;
      while i < |claims.scopes|
        invariant 0 <= i <= |claims.scopes|
        invariant forall k :: 0 <= k < i ==> claims.scopes[k] != scope
      {
        if claims.scopes[i] == scope {
          return true;
        }
        i := i + 1;
      }
      return false;
    }

    method ListClients(readable: bool) returns (reply: Reply)
      ensures Outcome(keys, store.disk, store.disk, Request.ListClients, readable, 0, reply)
    {
      hide Outcome, Answer, Saving, Load, TrimSpace, Filter, First, Seal, Clean, Unix, Verify, TypedCode;
      ghost var req, disk := Request.ListClients, store.disk;
      var loaded := store.LoadLocked(readable);
      if loaded.Err? {
        NotRead(keys, disk, req, readable, 0);
        return Failed(StoreFailed);
      }
      ClosureRead(keys, disk, req, readable, Clients(loaded.value.clients));
      return Clients(loaded.value.clients);
    }

    method RevokeClient(clientID: string, readable: bool, done: nat) returns (reply: Reply)
      requires done <= |SAVE_STEPS|
      modifies store
      ensures Outcome(keys, old(store.disk), store.disk, Request.RevokeClient(clientID), readable, done, reply)
    {
      hide Outcome, Answer, Saving, Load, TrimSpace, Filter, First, Seal, Clean, Unix, Verify, TypedCode;
      ghost var req, disk := Request.RevokeClient(clientID), store.disk;
      var id := TrimSpace(clientID);
      if id == "" {
        AnsweredEarly(keys, disk, req, readable, done, Revoked(false));
        return Revoked(false);
      }
      var revoked := false;
      var loaded := store.LoadLocked(readable);
      if loaded.Err? {
        NotRead(keys, disk, req, readable, done);
        return Failed(StoreFailed);
      }
      var cfg := new Draft(loaded.value);
      var i := 0;
      while i < |cfg.clients|
        invariant 0 <= i <= |cfg.clients|
        invariant !revoked && cfg.Value() == loaded.value
        invariant forall k :: 0 <= k < i ==> cfg.clients[k].id != id
      {
        if cfg.clients[i].id != id {
          i := i + 1;
          continue;
        }
        cfg.clients := cfg.clients[i := cfg.clients[i].(revoked := true)];
        revoked := true;
        break;
      }
      FirstIs(loaded.value.clients, ClientIDIs(id), i);
      var saved := store.SaveLocked(cfg.Value(), done);
      ClosureSaved(keys, disk, store.disk, req, readable, done, cfg.Value(), Revoked(revoked));
      if !saved {
        return Failed(StoreFailed);
      }
      return Revoked(revoked);
    }
  }
}
