/**
 Lazy pruning is invisible: the auth service answers as one that never drops an expired entry and only checks
 expiry at the moment of use.  The one difference a caller can see is which error a session request fails with:
 a dropped pending session is "not found" where the reference says "expired".  AuthSweeping says exactly when.
*/
module AuthPruning {
  import opened Basics
  import opened Text
  import opened Scopes
  import opened Tokens
  import opened Store
  import opened Auth
  import opened AuthRuns

  // ---------------------------------------------------------------- the reference

  function LiveCodeIs(code: string, now: int): PendingPairCode -> bool {
    (p: PendingPairCode) => p.expiresAt > now && p.code == code
  }

  /** The closures without pruning. */
  function KeepingClosure(keys: Keys, cfg: Config, req: Request): Result<(Config, Reply), AuthError> {
    match req
    case CreateSession(_, _, _, _, _, _, _) =>
      var s := NewSession(req);
      Ok((cfg.(sessions := cfg.sessions + [s]), SessionReply(s)))
    case ApproveSession(sessionID, _, _, newID, newJTI, t0, _) =>
      var i := First(cfg.sessions, SessionIDIs(TrimSpace(sessionID)));
      if i == |cfg.sessions| then Err(SessionNotFound)
      else if cfg.sessions[i].expiresAt <= t0 then Err(SessionExpired)
      else
        var s := cfg.sessions[i];
        var client := Client(newID, s.clientName, s.clientType, Requested(req.scopes), newJTI, t0, t0, false);
        var approved := Approve(keys, s, req);
        Ok((cfg.(clients := cfg.clients + [client], sessions := cfg.sessions[i := approved]), SessionReply(approved)))
    case EnsureBootstrap(serverName, newCode, t0, t1) =>
      var named := cfg.(serverName := serverName);
      var i := First(cfg.codes, CodeLive(t0));
      if First(cfg.clients, Active()) < |cfg.clients| then Ok((named, Bootstrapped("")))
      else if i < |cfg.codes| then Ok((named, Bootstrapped(cfg.codes[i].code)))
      else Ok((named.(codes := cfg.codes + [PendingPairCode(newCode, DEFAULT_SCOPES, t1 + PAIRING_TTL)]),
               Bootstrapped(newCode)))
    case GeneratePairingCode(_, _, _, _, _) =>
      var p := GeneratedCode(req);
      Ok((cfg.(codes := cfg.codes + [p]), Issued(p.code, p.expiresAt, p.scopes)))
    case Pair(code, name, kind, newID, newJTI, t0, _) =>
      var i := First(cfg.codes, LiveCodeIs(TypedCode(code), t0));
      if i == |cfg.codes| then Err(InvalidCode)
      else
        var pending := cfg.codes[i];
        var claims := PairedClaims(req, pending);
        var client := Client(newID, TrimSpace(name), TrimSpace(kind), pending.scopes, newJTI, t0, t0, false);
        Ok((cfg.(codes := cfg.codes[..i] + cfg.codes[i + 1..], clients := cfg.clients + [client]),
            Paired(Seal(keys, claims), newID, claims.expiry * SECOND, pending.scopes)))
    case _ => Closure(keys, cfg, req)
  }

  function KeepingAnswer(keys: Keys, cfg: Config, req: Request, io: Io): (Config, Reply) {
    match Early(keys, req)
    case Some(reply) => (cfg, reply)
    case None =>
      if io == CannotRead then (cfg, StoreFailure(req))
      else
        match KeepingClosure(keys, cfg, req)
        case Err(e) => (cfg, Failed(e))
        case Ok((next, reply)) =>
          if io == CannotSave && !ReadOnly(req) then (cfg, StoreFailure(req)) else (next, reply)
  }

  function Keeping(keys: Keys, run: seq<Event>): Config {
    if run == [] then EMPTY
    else KeepingAnswer(keys, Keeping(keys, run[..|run| - 1]), run[|run| - 1].req, run[|run| - 1].io).0
  }

  /** The service answers as the reference, or says "not found" of a session that the reference calls expired. */
  predicate SameReply(service: Reply, reference: Reply) {
    || service == reference
    || (service == Failed(SessionNotFound) && reference == Failed(SessionExpired))
  }

  /** The stores agree on everything that is still live at `now`. */
  ghost predicate Agree(now: int, cfg: Config, kept: Config) {
    && cfg.serverName == kept.serverName && cfg.clients == kept.clients
    && cfg.webhooks == kept.webhooks && cfg.lastWatchRowID == kept.lastWatchRowID
    && Filter(cfg.codes, CodeLive(now)) == Filter(kept.codes, CodeLive(now))
    && Filter(cfg.sessions, SessionLive(now)) == Filter(kept.sessions, SessionLive(now))
    && DistinctIDs(cfg.sessions) && DistinctIDs(kept.sessions)
  }

  ghost predicate HasID(sessions: seq<PendingSession>, id: string) {
    exists s :: s in sessions && s.id == id
  }

  /** The reference has never forgotten a session that the service still stores. */
  ghost predicate Remembers(kept: Config, cfg: Config) {
    forall s :: s in cfg.sessions ==> HasID(kept.sessions, s.id)
  }

  // ---------------------------------------------------------------- filtering

  /** Filtering by a condition first does not change what a stronger condition keeps. */
  lemma {:induction false} FilterStronger<T(!new)>(s: seq<T>, weak: T -> bool, strong: T -> bool)
    requires forall x :: strong(x) ==> weak(x)
    ensures Filter(Filter(s, weak), strong) == Filter(s, strong)
  {
    if s != [] {
      var front, last := s[..|s| - 1], s[|s| - 1];
      FilterStronger(front, weak, strong);
      if weak(last) { FilterSnoc(Filter(front, weak), last, strong); }
    }
  }

  lemma LaterCodes(s: seq<PendingPairCode>, t: int, u: int)
    requires t <= u
    ensures Filter(Filter(s, CodeLive(t)), CodeLive(u)) == Filter(s, CodeLive(u))
  {
    assert forall p :: CodeLive(u)(p) ==> CodeLive(t)(p);
    FilterStronger(s, CodeLive(t), CodeLive(u));
  }

  lemma LaterSessions(s: seq<PendingSession>, t: int, u: int)
    requires t <= u
    ensures Filter(Filter(s, SessionLive(t)), SessionLive(u)) == Filter(s, SessionLive(u))
  {
    assert forall p :: SessionLive(u)(p) ==> SessionLive(t)(p);
    FilterStronger(s, SessionLive(t), SessionLive(u));
  }

  lemma AgreeLater(t: int, u: int, cfg: Config, kept: Config)
    requires Agree(t, cfg, kept) && t <= u
    ensures Agree(u, cfg, kept)
  {
    LaterCodes(cfg.codes, t, u);
    LaterCodes(kept.codes, t, u);
    LaterSessions(cfg.sessions, t, u);
    LaterSessions(kept.sessions, t, u);
  }

  lemma FilterAround<T>(s: seq<T>, p: T -> bool, j: nat)
    requires j < |s| && p(s[j])
    ensures Filter(s, p) == Filter(s[..j], p) + [s[j]] + Filter(s[j + 1..], p)
    ensures Filter(s[..j] + s[j + 1..], p) == Filter(s[..j], p) + Filter(s[j + 1..], p)
  {
    hide Filter;
    var a, x, b := s[..j], s[j], s[j + 1..];
    assert s == a + [x] + b;
    FilterConcat(a + [x], b, p);
    FilterSnoc(a, x, p);
    FilterConcat(a, b, p);
  }

  /** The first element with both conditions is the first with the second among those with the first. */
  lemma FirstThroughFilter<T(!new)>(s: seq<T>, p: T -> bool, q: T -> bool, both: T -> bool)
    requires forall x :: both(x) <==> p(x) && q(x)
    ensures var j, live := First(s, both), Filter(s, p);
      var i := First(live, q);
      && (j < |s| <==> i < |live|)
      && (j < |s| ==> live[i] == s[j] && Filter(s[..j] + s[j + 1..], p) == live[..i] + live[i + 1..])
  {
    var j, live := First(s, both), Filter(s, p);
    if j < |s| {
      FilterAround(s, p, j);
      var before, after := Filter(s[..j], p), Filter(s[j + 1..], p);
      FilterMembers(s[..j], p);
      forall k | 0 <= k < |before| ensures !q(live[k]) {
        assert live[k] == before[k] && before[k] in before;
        var m :| 0 <= m < j && s[m] == before[k];
        assert !both(s[m]);
      }
      assert live[|before|] == s[j];
      FirstIs(live, q, |before|);
      assert live[..|before|] == before && live[|before| + 1..] == after;
    } else {
      FilterMembers(s, p);
      forall k | 0 <= k < |live| ensures !q(live[k]) {
        assert live[k] in live;
        var m :| 0 <= m < |s| && s[m] == live[k];
        assert !both(s[m]);
      }
      FirstIs(live, q, |live|);
    }
  }

  lemma FirstIsHead<T>(s: seq<T>, p: T -> bool)
    ensures var j, live := First(s, p), Filter(s, p);
      && (j < |s| <==> live != [])
      && (j < |s| ==> live[0] == s[j])
  {
    var j := First(s, p);
    FilterMembers(s[..j], p);
    if Filter(s[..j], p) != [] { assert Filter(s[..j], p)[0] in s[..j]; }
    if j < |s| {
      FilterAround(s, p, j);
    } else {
      assert s[..j] == s;
    }
  }

  /** Among sessions with distinct ids, looking up an id finds the live one if there is one, else nothing live. */
  lemma LookupThroughFilter(s: seq<PendingSession>, now: int, id: string)
    requires DistinctIDs(s)
    ensures var j, live := First(s, SessionIDIs(id)), Filter(s, SessionLive(now));
      var i := First(live, SessionIDIs(id));
      && (i < |live| <==> j < |s| && SessionLive(now)(s[j]))
      && (i < |live| ==> live[i] == s[j])
  {
    var j, live := First(s, SessionIDIs(id)), Filter(s, SessionLive(now));
    var i := First(live, SessionIDIs(id));
    FilterMembers(s, SessionLive(now));
    if j < |s| && SessionLive(now)(s[j]) {
      assert SessionIDIs(id)(s[j]) && s[j] in live;
      var m :| 0 <= m < |live| && live[m] == s[j];
      FirstAtMost(live, SessionIDIs(id), m);
    }
    if i < |live| {
      assert live[i] in live && SessionIDIs(id)(live[i]);
      var m :| 0 <= m < |s| && s[m] == live[i];
      FirstAtMost(s, SessionIDIs(id), m);
      assert SessionIDIs(id)(s[j]) && s[j].id == s[m].id;
    }
  }

  lemma FirstAtMost<T>(s: seq<T>, p: T -> bool, m: nat)
    requires m < |s| && p(s[m])
    ensures First(s, p) <= m
  {
  }

  lemma ReplaceThroughFilter(s: seq<PendingSession>, now: int, id: string, y: PendingSession)
    requires DistinctIDs(s) && SessionLive(now)(y)
    requires var i := First(Filter(s, SessionLive(now)), SessionIDIs(id)); i < |Filter(s, SessionLive(now))|
    ensures var j, live := First(s, SessionIDIs(id)), Filter(s, SessionLive(now));
      j < |s| && Filter(s[j := y], SessionLive(now)) == live[First(live, SessionIDIs(id)) := y]
  {
    hide Filter, First;
    LookupThroughFilter(s, now, id);
    var p, j, live := SessionLive(now), First(s, SessionIDIs(id)), Filter(s, SessionLive(now));
    FilterAround(s, p, j);
    var before, after := Filter(s[..j], p), Filter(s[j + 1..], p);
    var replaced := s[j := y];
    assert replaced[..j] == s[..j] && replaced[j + 1..] == s[j + 1..];
    FilterAround(replaced, p, j);
    NoneBefore(s, p, SessionIDIs(id));
    assert live[|before|] == s[j];
    assert SessionIDIs(id)(s[j]);
    FirstIs(live, SessionIDIs(id), |before|);
    assert live[|before| := y] == before + [y] + after;
  }

  lemma NoneBefore<T>(s: seq<T>, p: T -> bool, q: T -> bool)
    ensures forall k :: 0 <= k < |Filter(s[..First(s, q)], p)| ==> !q(Filter(s[..First(s, q)], p)[k])
  {
    var j := First(s, q);
    var before := Filter(s[..j], p);
    FilterMembers(s[..j], p);
    forall k | 0 <= k < |before| ensures !q(before[k]) {
      assert before[k] in before;
      var m :| 0 <= m < j && s[m] == before[k];
      assert !q(s[m]);
    }
  }

  // ---------------------------------------------------------------- one closure

  /** Both closures fail alike, or both succeed with one answer and stores that agree. */
  ghost predicate Match(now: int, a: Result<(Config, Reply), AuthError>, b: Result<(Config, Reply), AuthError>) {
    || (a.Ok? && b.Ok? && a.value.1 == b.value.1 && Agree(now, a.value.0, b.value.0))
    || (a.Err? && b.Err? && SameReply(Failed(a.error), Failed(b.error)))
  }

  lemma AgreeOnCodes(t: int, u: int, cfg: Config, kept: Config, more: seq<PendingPairCode>)
    requires Agree(t, cfg, kept) && t <= u
    ensures Filter(Filter(cfg.codes, CodeLive(u)) + more, CodeLive(u)) == Filter(kept.codes + more, CodeLive(u))
  {
    AgreeLater(t, u, cfg, kept);
    LaterCodes(cfg.codes, u, u);
    FilterConcat(Filter(cfg.codes, CodeLive(u)), more, CodeLive(u));
    FilterConcat(kept.codes, more, CodeLive(u));
  }

  lemma CreateMatches(keys: Keys, clock: int, cfg: Config, kept: Config, req: Request)
    requires req.CreateSession? && Agree(clock, cfg, kept) && OnTime(req, clock)
    requires forall s :: s in cfg.sessions || s in kept.sessions ==> s.id != req.newID
    ensures Match(req.t2, Closure(keys, cfg, req), KeepingClosure(keys, kept, req))
  {
    hide TrimSpace, Filter;
    var t1, t2, x := req.t1, req.t2, NewSession(req);
    AgreeLater(clock, t2, cfg, kept);
    LaterCodes(cfg.codes, t1, t2);
    LaterSessions(cfg.sessions, t2, t2);
    FilterSnoc(Filter(cfg.sessions, SessionLive(t2)), x, SessionLive(t2));
    FilterSnoc(kept.sessions, x, SessionLive(t2));
    FilterMembers(cfg.sessions, SessionLive(t2));
    FilterDistinctIDs(cfg.sessions, SessionLive(t2));
    assert x.id == req.newID;
  }

  lemma GetMatches(keys: Keys, clock: int, cfg: Config, kept: Config, req: Request)
    requires req.GetSession? && Agree(clock, cfg, kept) && OnTime(req, clock) && Remembers(kept, cfg)
    ensures Match(req.t0, Closure(keys, cfg, req), KeepingClosure(keys, kept, req))
  {
    hide TrimSpace, Filter, First;
    var id := TrimSpace(req.sessionID);
    AgreeLater(clock, req.t0, cfg, kept);
    LookupThroughFilter(cfg.sessions, req.t0, id);
    LookupThroughFilter(kept.sessions, req.t0, id);
    FoundByID(cfg.sessions, kept.sessions, id);
  }

  lemma FoundByID(sessions: seq<PendingSession>, kept: seq<PendingSession>, id: string)
    requires forall s :: s in sessions ==> HasID(kept, s.id)
    ensures First(sessions, SessionIDIs(id)) < |sessions| ==> First(kept, SessionIDIs(id)) < |kept|
  {
    var i := First(sessions, SessionIDIs(id));
    if i < |sessions| {
      assert sessions[i] in sessions && SessionIDIs(id)(sessions[i]);
      var t :| t in kept && t.id == id;
      var m :| 0 <= m < |kept| && kept[m] == t;
      FirstAtMost(kept, SessionIDIs(id), m);
    }
  }

  lemma ApproveIsLive(keys: Keys, s: PendingSession, req: Request, now: int)
    requires req.ApproveSession?
    ensures SessionLive(now)(Approve(keys, s, req)) && Approve(keys, s, req).id == s.id
  {
  }

  lemma ReplaceKeepsDistinct(s: seq<PendingSession>, i: nat, y: PendingSession)
    requires DistinctIDs(s) && i < |s| && y.id == s[i].id
    ensures DistinctIDs(s[i := y])
  {
    var after := s[i := y];
    forall k, l | 0 <= k < l < |after| ensures after[k].id != after[l].id {
      assert s[k].id != s[l].id;
    }
  }

  lemma ApproveMatches(keys: Keys, clock: int, cfg: Config, kept: Config, req: Request)
    requires req.ApproveSession? && Agree(clock, cfg, kept) && OnTime(req, clock)
    ensures Match(req.t1, Closure(keys, cfg, req), KeepingClosure(keys, kept, req))
  {
    hide TrimSpace, Filter, First, Approve, Requested, Agree, DistinctIDs, Clean;
    var id, t0 := TrimSpace(req.sessionID), req.t0;
    AgreeLater(clock, t0, cfg, kept);
    var live, i := Filter(cfg.sessions, SessionLive(t0)), Approvable(cfg, req);
    var j := First(kept.sessions, SessionIDIs(id));
    AgreeParts(t0, cfg, kept);
    LookupThroughFilter(kept.sessions, t0, id);
    if i < |live| && live[i].expiresAt > t0 {
      var y := Approve(keys, live[i], req);
      ApproveIsLive(keys, live[i], req, t0);
      ReplaceThroughFilter(kept.sessions, t0, id, y);
      var a, b := Closure(keys, cfg, req).value.0, KeepingClosure(keys, kept, req).value.0;
      assert a.sessions == live[i := y] && b.sessions == kept.sessions[j := y];
      SelfFilter(cfg.sessions, live, i, y, t0);
      FilterDistinctIDs(cfg.sessions, SessionLive(t0));
      ReplaceKeepsDistinct(live, i, y);
      ReplaceKeepsDistinct(kept.sessions, j, y);
      AgreeFromParts(t0, a, b);
      AgreeLater(t0, req.t1, a, b);
    }
  }

  lemma AgreeParts(now: int, cfg: Config, kept: Config)
    requires Agree(now, cfg, kept)
    ensures && cfg.serverName == kept.serverName && cfg.clients == kept.clients
      && cfg.webhooks == kept.webhooks && cfg.lastWatchRowID == kept.lastWatchRowID
      && Filter(cfg.codes, CodeLive(now)) == Filter(kept.codes, CodeLive(now))
      && Filter(cfg.sessions, SessionLive(now)) == Filter(kept.sessions, SessionLive(now))
      && DistinctIDs(cfg.sessions) && DistinctIDs(kept.sessions)
  {
  }

  lemma AgreeFromParts(now: int, cfg: Config, kept: Config)
    requires && cfg.serverName == kept.serverName && cfg.clients == kept.clients
      && cfg.webhooks == kept.webhooks && cfg.lastWatchRowID == kept.lastWatchRowID
      && Filter(cfg.codes, CodeLive(now)) == Filter(kept.codes, CodeLive(now))
      && Filter(cfg.sessions, SessionLive(now)) == Filter(kept.sessions, SessionLive(now))
      && DistinctIDs(cfg.sessions) && DistinctIDs(kept.sessions)
    ensures Agree(now, cfg, kept)
  {
  }

  /** Replacing a live session by another live one commutes with filtering once more. */
  lemma SelfFilter(s: seq<PendingSession>, live: seq<PendingSession>, i: nat, y: PendingSession, now: int)
    requires live == Filter(s, SessionLive(now)) && i < |live| && SessionLive(now)(y)
    ensures Filter(live[i := y], SessionLive(now)) == live[i := y]
  {
    FilterMembers(s, SessionLive(now));
    FilterAll(live[i := y], SessionLive(now));
  }

  lemma BootstrapMatches(keys: Keys, clock: int, cfg: Config, kept: Config, req: Request)
    requires req.EnsureBootstrap? && Agree(clock, cfg, kept) && OnTime(req, clock)
    ensures Match(req.t1, Closure(keys, cfg, req), KeepingClosure(keys, kept, req))
  {
    hide Filter, First, DistinctIDs;
    var t0, t1, p := req.t0, req.t1, PendingPairCode(req.newCode, DEFAULT_SCOPES, req.t1 + PAIRING_TTL);
    AgreeLater(clock, t0, cfg, kept);
    FirstIsHead(kept.codes, CodeLive(t0));
    var live := Filter(cfg.codes, CodeLive(t0));
    AgreeLater(t0, t1, cfg, kept);
    LaterCodes(cfg.codes, t0, t1);
    FilterSnoc(live, p, CodeLive(t1));
    FilterSnoc(kept.codes, p, CodeLive(t1));
  }

  lemma GenerateMatches(keys: Keys, clock: int, cfg: Config, kept: Config, req: Request)
    requires req.GeneratePairingCode? && Agree(clock, cfg, kept) && OnTime(req, clock)
    ensures Match(req.t1, Closure(keys, cfg, req), KeepingClosure(keys, kept, req))
  {
    hide Filter, DistinctIDs, Clean;
    AgreeLater(clock, req.t1, cfg, kept);
    AgreeOnCodes(clock, req.t1, cfg, kept, [GeneratedCode(req)]);
  }

  lemma PairMatches(keys: Keys, clock: int, cfg: Config, kept: Config, req: Request)
    requires req.Pair? && Agree(clock, cfg, kept) && OnTime(req, clock)
    ensures Match(req.t1, Closure(keys, cfg, req), KeepingClosure(keys, kept, req))
  {
    hide Filter, First, DistinctIDs, TypedCode, TrimSpace, Seal, Unix, Clean;
    var t0, t1, code := req.t0, req.t1, TypedCode(req.code);
    AgreeLater(clock, t0, cfg, kept);
    var both := LiveCodeIs(code, t0);
    assert forall x :: both(x) <==> CodeLive(t0)(x) && CodeIs(code)(x);
    FirstThroughFilter(kept.codes, CodeLive(t0), CodeIs(code), both);
    var live := Filter(cfg.codes, CodeLive(t0));
    var i, j := First(live, CodeIs(code)), First(kept.codes, both);
    if i < |live| {
      var rest, keptRest := live[..i] + live[i + 1..], kept.codes[..j] + kept.codes[j + 1..];
      assert Filter(keptRest, CodeLive(t0)) == rest;
      LaterCodes(keptRest, t0, t1);
      AgreeLater(t0, t1, cfg, kept);
    }
  }

  lemma OtherMatches(keys: Keys, clock: int, cfg: Config, kept: Config, req: Request)
    requires req.Authenticate? || req.ListClients? || req.RevokeClient?
    requires Agree(clock, cfg, kept) && OnTime(req, clock)
    ensures Match(Latest(req, clock), Closure(keys, cfg, req), KeepingClosure(keys, kept, req))
  {
    hide Filter, First, DistinctIDs, TrimSpace, Verify;
    AgreeLater(clock, Latest(req, clock), cfg, kept);
  }

  lemma ClosuresMatch(keys: Keys, clock: int, cfg: Config, kept: Config, req: Request)
    requires Agree(clock, cfg, kept) && OnTime(req, clock) && Remembers(kept, cfg)
    requires req.CreateSession? ==> forall s :: s in cfg.sessions || s in kept.sessions ==> s.id != req.newID
    ensures Match(Latest(req, clock), Closure(keys, cfg, req), KeepingClosure(keys, kept, req))
  {
    hide Agree, Closure, KeepingClosure, Match, Remembers;
    match req
    case CreateSession(_, _, _, _, _, _, _) => CreateMatches(keys, clock, cfg, kept, req);
    case GetSession(_, _) => GetMatches(keys, clock, cfg, kept, req);
    case ApproveSession(_, _, _, _, _, _, _) => ApproveMatches(keys, clock, cfg, kept, req);
    case EnsureBootstrap(_, _, _, _) => BootstrapMatches(keys, clock, cfg, kept, req);
    case GeneratePairingCode(_, _, _, _, _) => GenerateMatches(keys, clock, cfg, kept, req);
    case Pair(_, _, _, _, _, _, _) => PairMatches(keys, clock, cfg, kept, req);
    case _ => OtherMatches(keys, clock, cfg, kept, req);
  }

  // ---------------------------------------------------------------- whole runs

  lemma AnswersMatch(keys: Keys, clock: int, cfg: Config, kept: Config, ev: Event)
    requires Agree(clock, cfg, kept) && OnTime(ev.req, clock) && Remembers(kept, cfg)
    requires ev.req.CreateSession? ==> forall s :: s in cfg.sessions || s in kept.sessions ==> s.id != ev.req.newID
    ensures var (a, ra) := Answer(keys, cfg, ev.req, ev.io); var (b, rb) := KeepingAnswer(keys, kept, ev.req, ev.io);
      Agree(Latest(ev.req, clock), a, b) && SameReply(ra, rb)
  {
    hide Agree, Closure, KeepingClosure, Early, Remembers;
    ClosuresMatch(keys, clock, cfg, kept, ev.req);
    LatestIsLater(ev.req, clock);
    AgreeLater(clock, Latest(ev.req, clock), cfg, kept);
  }

  lemma LatestIsLater(req: Request, clock: int)
    requires OnTime(req, clock)
    ensures clock <= Latest(req, clock)
  {
  }

  /** The ids of kept sessions are ids the run has spent. */
  lemma KeptIDs(keys: Keys, cfg: Config, req: Request, io: Io)
    ensures forall s :: s in KeepingAnswer(keys, cfg, req, io).0.sessions ==>
      (exists t :: t in cfg.sessions && t.id == s.id) || s.id in NewIDs(req)
  {
    hide TrimSpace, Seal, Unix, Clean, Verify, Filter, TypedCode, Requested, Early;
    var after := KeepingAnswer(keys, cfg, req, io).0;
    forall s | s in after.sessions
      ensures (exists t :: t in cfg.sessions && t.id == s.id) || s.id in NewIDs(req)
    {
      if s !in cfg.sessions {
        if req.ApproveSession? {
          var i := First(cfg.sessions, SessionIDIs(TrimSpace(req.sessionID)));
          assert cfg.sessions[i] in cfg.sessions && s.id == cfg.sessions[i].id;
        }
      }
    }
  }

  /** The service's sessions come from a committed creation or were there before. */
  lemma StoredIDs(keys: Keys, cfg: Config, req: Request, io: Io)
    ensures forall s :: s in Answer(keys, cfg, req, io).0.sessions ==>
      HasID(cfg.sessions, s.id) || (req.CreateSession? && io == Works && Early(keys, req).None? && s.id == req.newID)
  {
    hide TrimSpace, Seal, Unix, Clean, Verify, Filter, TypedCode, Requested, Early;
    var after := Answer(keys, cfg, req, io).0;
    if req.CreateSession? { FilterMembers(cfg.sessions, SessionLive(req.t2)); }
    if req.ApproveSession? { FilterMembers(cfg.sessions, SessionLive(req.t0)); }
    forall s | s in after.sessions
      ensures HasID(cfg.sessions, s.id)
        || (req.CreateSession? && io == Works && Early(keys, req).None? && s.id == req.newID)
    {
      if s !in cfg.sessions && req.ApproveSession? {
        var live := Filter(cfg.sessions, SessionLive(req.t0));
        var i := First(live, SessionIDIs(TrimSpace(req.sessionID)));
        assert live[i] in live && s.id == live[i].id;
      }
    }
  }

  /** The reference forgets no session, and has one more after a committed creation. */
  lemma NothingForgotten(keys: Keys, kept: Config, req: Request, io: Io, id: string)
    requires HasID(kept.sessions, id)
      || (req.CreateSession? && io == Works && Early(keys, req).None? && id == req.newID)
    ensures HasID(KeepingAnswer(keys, kept, req, io).0.sessions, id)
  {
    hide TrimSpace, Seal, Unix, Clean, Verify, Filter, TypedCode, Requested, Early;
    var after := KeepingAnswer(keys, kept, req, io).0;
    if HasID(kept.sessions, id) {
      var s :| s in kept.sessions && s.id == id;
      var m :| 0 <= m < |kept.sessions| && kept.sessions[m] == s;
      assert after.sessions[m] in after.sessions && after.sessions[m].id == id;
    } else {
      assert NewSession(req) in after.sessions && NewSession(req).id == id;
    }
  }

  lemma RemembersStep(keys: Keys, cfg: Config, kept: Config, req: Request, io: Io)
    requires Remembers(kept, cfg)
    ensures Remembers(KeepingAnswer(keys, kept, req, io).0, Answer(keys, cfg, req, io).0)
  {
    hide Answer, KeepingAnswer, Early, HasID;
    StoredIDs(keys, cfg, req, io);
    forall s | s in Answer(keys, cfg, req, io).0.sessions
      ensures HasID(KeepingAnswer(keys, kept, req, io).0.sessions, s.id)
    {
      if HasID(cfg.sessions, s.id) { RememberedID(kept, cfg, s.id); }
      NothingForgotten(keys, kept, req, io, s.id);
    }
  }

  lemma RememberedID(kept: Config, cfg: Config, id: string)
    requires Remembers(kept, cfg) && HasID(cfg.sessions, id)
    ensures HasID(kept.sessions, id)
  {
    var s :| s in cfg.sessions && s.id == id;
  }

  lemma {:induction false} RunsAgree(keys: Keys, clock: int, run: seq<Event>)
    requires LegalRun(keys, clock, run)
    ensures var w := Replay(keys, clock, run);
      && Agree(w.clock, w.cfg, Keeping(keys, run)) && Remembers(Keeping(keys, run), w.cfg)
      && forall s :: s in Keeping(keys, run).sessions ==> s.id in w.spent
  {
    hide Legal, Inv, Agree, Answer, KeepingAnswer, HasID;
    if run == [] {
      AgreeFromParts(clock, EMPTY, EMPTY);
    } else {
      var n := |run| - 1;
      var front, ev := run[..n], run[n];
      assert forall i :: 0 <= i < n ==> front[..i] == run[..i];
      RunsAgree(keys, clock, front);
      RunsKeepInv(keys, clock, front);
      var w, kept := Replay(keys, clock, front), Keeping(keys, front);
      LegalParts(keys, w, ev, kept);
      AnswersMatch(keys, w.clock, w.cfg, kept, ev);
      RemembersStep(keys, w.cfg, kept, ev.req, ev.io);
      KeptIDs(keys, kept, ev.req, ev.io);
      StepParts(keys, w, ev);
    }
  }

  lemma StepParts(keys: Keys, w: World, ev: Event)
    ensures var v := Step(keys, w, ev);
      && v.cfg == Answer(keys, w.cfg, ev.req, ev.io).0
      && v.clock == Latest(ev.req, w.clock) && v.spent == w.spent + NewIDs(ev.req)
  {
    hide Answer, Minted, Commits, NewEntry, Redeemable, Dropped, NewIDs, Latest;
  }

  lemma LegalParts(keys: Keys, w: World, ev: Event, kept: Config)
    requires Inv(keys, w) && Legal(keys, w, ev)
    requires forall s :: s in kept.sessions ==> s.id in w.spent
    ensures OnTime(ev.req, w.clock)
    ensures ev.req.CreateSession? ==> forall s :: s in w.cfg.sessions || s in kept.sessions ==> s.id != ev.req.newID
  {
    hide ClientsMatch, IDsMatch, CodesMatch, SessionMatches, Open, OnTime;
  }

  /**
   For every event of every legal run, the service answers as the reference that never prunes; the only possible
   difference is that it says "not found" where the reference says "expired", and never the other way round.  So Pair
   and EnsureBootstrap answer identically, and GetSession and ApproveSession succeed on the same sessions with the same
   result.
  */
  lemma PruningIsInvisible(keys: Keys, clock: int, run: seq<Event>, i: nat)
    requires LegalRun(keys, clock, run) && i < |run|
    ensures SameReply(Answer(keys, Replay(keys, clock, run[..i]).cfg, run[i].req, run[i].io).1,
                      KeepingAnswer(keys, Keeping(keys, run[..i]), run[i].req, run[i].io).1)
  {
    hide Legal, Inv, Agree, Answer, KeepingAnswer;
    var front, ev := run[..i], run[i];
    assert forall k :: 0 <= k < i ==> front[..k] == run[..k];
    RunsAgree(keys, clock, front);
    RunsKeepInv(keys, clock, front);
    var w, kept := Replay(keys, clock, front), Keeping(keys, front);
    LegalParts(keys, w, ev, kept);
    AnswersMatch(keys, w.clock, w.cfg, kept, ev);
  }

  /**
   The difference does occur, in the run of these three requests for every choice of them: a session is created and
   expires, creating another sweeps it, and then it is asked for.
  */
  lemma DroppedIsNotFound(keys: Keys, a: Request, b: Request, now: int)
    requires a.CreateSession? && b.CreateSession? && Early(keys, a).None? && Early(keys, b).None?
    requires a.newID == TrimSpace(a.newID) != b.newID
    requires OnTime(a, a.t0) && OnTime(b, a.t2) && a.t0 + SESSION_TTL <= b.t2 <= now
    ensures var run := [Event(a, Works), Event(b, Works), Event(GetSession(a.newID, now), Works)];
      && LegalRun(keys, a.t0, run)
      && Answer(keys, Replay(keys, a.t0, run[..2]).cfg, run[2].req, Works).1 == Failed(SessionNotFound)
      && KeepingAnswer(keys, Keeping(keys, run[..2]), run[2].req, Works).1 == Failed(SessionExpired)
  {
    hide TrimSpace, Early, Answer, KeepingAnswer, Step, LegalRun, Replay, Keeping, First;
    var run := [Event(a, Works), Event(b, Works), Event(GetSession(a.newID, now), Works)];
    var two := [Event(a, Works), Event(b, Works)];
    assert run[..2] == two;
    LegalThree(keys, a, b, now);
    TwoCreations(keys, a, b);
    FirstIs(Keeping(keys, two).sessions, SessionIDIs(a.newID), 0);
    FirstIs(Replay(keys, a.t0, two).cfg.sessions, SessionIDIs(a.newID), 1);
    GetAnswers(keys, Replay(keys, a.t0, two).cfg, Keeping(keys, two), a.newID, now);
  }

  lemma TwoCreations(keys: Keys, a: Request, b: Request)
    requires a.CreateSession? && b.CreateSession? && Early(keys, a).None? && Early(keys, b).None?
    requires a.t0 + SESSION_TTL <= b.t2
    ensures var two := [Event(a, Works), Event(b, Works)];
      && Replay(keys, a.t0, two).cfg.sessions == [NewSession(b)]
      && Keeping(keys, two).sessions == [NewSession(a), NewSession(b)]
  {
    hide TrimSpace, Early, Answer, KeepingAnswer, Step;
    var first, second := Event(a, Works), Event(b, Works);
    var two, one := [first, second], [first];
    assert two[..1] == one && one[..0] == [];
    var w, kept := Replay(keys, a.t0, one), Keeping(keys, one);
    StepParts(keys, Start(a.t0), first);
    StepParts(keys, w, second);
    CreateAnswers(keys, EMPTY, EMPTY, a);
    CreateAnswers(keys, w.cfg, kept, b);
    assert Replay(keys, a.t0, one[..0]) == Start(a.t0) && Keeping(keys, one[..0]) == EMPTY;
    assert w == Step(keys, Start(a.t0), one[0]) && kept == KeepingAnswer(keys, EMPTY, a, Works).0;
    assert w.cfg.sessions == [NewSession(a)] == kept.sessions;
    assert Filter([NewSession(a)], SessionLive(b.t2)) == [];
  }

  lemma LegalThree(keys: Keys, a: Request, b: Request, now: int)
    requires a.CreateSession? && b.CreateSession? && a.newID != b.newID
    requires OnTime(a, a.t0) && OnTime(b, a.t2) && b.t2 <= now
    ensures LegalRun(keys, a.t0, [Event(a, Works), Event(b, Works), Event(GetSession(a.newID, now), Works)])
  {
    hide Answer, Step;
    var first, second, ask := Event(a, Works), Event(b, Works), Event(GetSession(a.newID, now), Works);
    var run, two, one := [first, second, ask], [first, second], [first];
    assert run[..2] == two && run[..1] == two[..1] == one && run[..0] == one[..0] == [];
    var w := Replay(keys, a.t0, one);
    StepParts(keys, Start(a.t0), first);
    StepParts(keys, w, second);
  }

  lemma CreateAnswers(keys: Keys, cfg: Config, kept: Config, req: Request)
    requires req.CreateSession? && Early(keys, req).None?
    ensures Answer(keys, cfg, req, Works).0.sessions == Filter(cfg.sessions, SessionLive(req.t2)) + [NewSession(req)]
    ensures KeepingAnswer(keys, kept, req, Works).0.sessions == kept.sessions + [NewSession(req)]
  {
    hide TrimSpace, Filter;
  }

  lemma GetAnswers(keys: Keys, cfg: Config, kept: Config, id: string, now: int)
    requires id == TrimSpace(id)
    requires First(cfg.sessions, SessionIDIs(id)) == |cfg.sessions|
    requires var j := First(kept.sessions, SessionIDIs(id)); j < |kept.sessions| && kept.sessions[j].expiresAt <= now
    ensures Answer(keys, cfg, GetSession(id, now), Works).1 == Failed(SessionNotFound)
    ensures KeepingAnswer(keys, kept, GetSession(id, now), Works).1 == Failed(SessionExpired)
  {
    hide TrimSpace, First;
  }

  /** Only session requests can see even that difference. */
  lemma OnlySessionErrorsDiffer(keys: Keys, clock: int, run: seq<Event>, i: nat)
    requires LegalRun(keys, clock, run) && i < |run|
    requires !run[i].req.GetSession? && !run[i].req.ApproveSession?
    ensures Answer(keys, Replay(keys, clock, run[..i]).cfg, run[i].req, run[i].io).1
         == KeepingAnswer(keys, Keeping(keys, run[..i]), run[i].req, run[i].io).1
  {
    hide Replay, Keeping, Answer, KeepingAnswer;
    PruningIsInvisible(keys, clock, run, i);
    NoSessionError(keys, Replay(keys, clock, run[..i]).cfg, run[i]);
  }

  lemma NoSessionError(keys: Keys, cfg: Config, ev: Event)
    requires !ev.req.GetSession? && !ev.req.ApproveSession?
    ensures Answer(keys, cfg, ev.req, ev.io).1 != Failed(SessionNotFound)
    ensures Answer(keys, cfg, ev.req, ev.io).1 != Failed(SessionExpired)
  {
    hide Filter, First, TrimSpace, Verify, TypedCode, Seal, Clean, Unix;
  }
}
