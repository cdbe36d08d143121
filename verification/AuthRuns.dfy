/**
 Whole runs of the auth service.  A run is a sequence of requests, each with the way the store behaved; `Replay`
 keeps, beside the stored configuration, the history the theorems speak of: claims signed, claims granted by a
 committed request, claims that authenticated, clients revoked, and pairing codes issued, redeemed and expired.

 Assumed of the environment (`Legal`): the clock does not run backwards, generated ids are fresh, a signature that
 verifies is on a payload signed by this service, and an approver's claims come from an earlier successful Authenticate.
*/
module AuthRuns {
  import opened Basics
  import opened Text
  import opened Scopes
  import opened Tokens
  import opened Store
  import opened Auth

  datatype Event = Event(req: Request, io: Io)

  datatype World = World(
    cfg: Config,
    clock: int,
    spent: set<string>,
    minted: set<TokenClaims>,
    granted: set<TokenClaims>,
    accepted: set<TokenClaims>,
    revoked: set<string>,
    issued: seq<PendingPairCode>,
    redeemed: seq<PendingPairCode>,
    expired: seq<PendingPairCode>)

  function Start(clock: int): World {
    World(EMPTY, clock, {}, {}, {}, {}, {}, [], [], [])
  }

  // ---------------------------------------------------------------- the history of one event

  /** The closure ran to its end, so whatever it signs has been signed; saving may still fail. */
  predicate Ran(keys: Keys, cfg: Config, ev: Event) {
    Early(keys, ev.req).None? && ev.io != CannotRead && Closure(keys, cfg, ev.req).Ok?
  }

  predicate Commits(keys: Keys, cfg: Config, ev: Event) {
    Ran(keys, cfg, ev) && (ev.io == Works || ReadOnly(ev.req))
  }

  /** The entry a Pair with this request redeems: the first unexpired one with the typed code. */
  function Redeemable(cfg: Config, req: Request): Option<PendingPairCode>
    requires req.Pair?
  {
    var live := Filter(cfg.codes, CodeLive(req.t0));
    var i := First(live, CodeIs(TypedCode(req.code)));
    if i < |live| then Some(live[i]) else None
  }

  /** The claims signed by an event, if it signs any. */
  function Minted(keys: Keys, cfg: Config, ev: Event): Option<TokenClaims> {
    if !Ran(keys, cfg, ev) then None
    else if ev.req.Pair? then
      match Redeemable(cfg, ev.req)
      case None => None
      case Some(p) => Some(PairedClaims(ev.req, p))
    else if ev.req.ApproveSession? then Some(DelegatedClaims(ev.req))
    else None
  }

  function AsSet<T(==)>(o: Option<T>): set<T> {
    if o.Some? then {o.value} else {}
  }

  function AsSeq<T>(o: Option<T>): seq<T> {
    if o.Some? then [o.value] else []
  }

  /** The instant at which a request drops expired codes, if it does. */
  function PruneInstant(req: Request): Option<int> {
    match req
    case CreateSession(_, _, _, _, _, t1, _) => Some(t1)
    case EnsureBootstrap(_, _, t0, _) => Some(t0)
    case GeneratePairingCode(_, _, _, _, t1) => Some(t1)
    case Pair(_, _, _, _, _, t0, _) => Some(t0)
    case _ => None
  }

  function CodeDead(now: int): PendingPairCode -> bool {
    (p: PendingPairCode) => p.expiresAt <= now
  }

  function Dropped(cfg: Config, req: Request): seq<PendingPairCode> {
    match PruneInstant(req)
    case None => []
    case Some(now) => Filter(cfg.codes, CodeDead(now))
  }

  /** The entry an event adds to the pending codes, if any. */
  function NewEntry(cfg: Config, req: Request): Option<PendingPairCode> {
    if req.GeneratePairingCode? then Some(GeneratedCode(req))
    else if req.EnsureBootstrap?
            && First(cfg.clients, Active()) == |cfg.clients|
            && Filter(cfg.codes, CodeLive(req.t0)) == []
    then Some(PendingPairCode(req.newCode, DEFAULT_SCOPES, req.t1 + PAIRING_TTL))
    else None
  }

  function NewIDs(req: Request): set<string> {
    match req
    case CreateSession(_, _, newID, _, _, _, _) => {newID}
    case ApproveSession(_, _, _, newID, newJTI, _, _) => {newID, newJTI}
    case Pair(_, _, _, newID, newJTI, _, _) => {newID, newJTI}
    case _ => {}
  }

  /** The last clock reading of a request. */
  function Latest(req: Request, clock: int): int {
    match req
    case CreateSession(_, _, _, _, _, _, t2) => t2
    case GetSession(_, t0) => t0
    case ApproveSession(_, _, _, _, _, _, t1) => t1
    case EnsureBootstrap(_, _, _, t1) => t1
    case GeneratePairingCode(_, _, _, _, t1) => t1
    case Pair(_, _, _, _, _, _, t1) => t1
    case Authenticate(_, _, t1) => t1
    case _ => clock
  }

  predicate OnTime(req: Request, clock: int) {
    match req
    case CreateSession(_, _, _, _, t0, t1, t2) => clock <= t0 <= t1 <= t2
    case GetSession(_, t0) => clock <= t0
    case ApproveSession(_, _, _, _, _, t0, t1) => clock <= t0 <= t1
    case EnsureBootstrap(_, _, t0, t1) => clock <= t0 <= t1
    case GeneratePairingCode(_, _, _, t0, t1) => clock <= t0 <= t1
    case Pair(_, _, _, _, _, t0, t1) => clock <= t0 <= t1
    case Authenticate(_, t0, t1) => clock <= t0 <= t1
    case _ => true
  }

  ghost predicate Legal(keys: Keys, w: World, ev: Event) {
    && OnTime(ev.req, w.clock)
    && NewIDs(ev.req) !! w.spent
    && (ev.req.ApproveSession? ==> ev.req.newID != ev.req.newJTI && ev.req.approver in w.accepted)
    && (ev.req.Pair? ==> ev.req.newID != ev.req.newJTI)
    && (ev.req.Authenticate? ==> Unforged(keys, TrimSpace(ev.req.token), w.minted))
  }

  function Step(keys: Keys, w: World, ev: Event): World {
    var (cfg, reply) := Answer(keys, w.cfg, ev.req, ev.io);
    var minted := AsSet(Minted(keys, w.cfg, ev));
    var commits := Commits(keys, w.cfg, ev);
    World(
      cfg,
      Latest(ev.req, w.clock),
      w.spent + NewIDs(ev.req),
      w.minted + minted,
      w.granted + if commits then minted else {},
      w.accepted + if reply.Authenticated? then {reply.claims} else {},
      w.revoked + if reply == Revoked(true) then {TrimSpace(ev.req.clientID)} else {},
      w.issued + if commits then AsSeq(NewEntry(w.cfg, ev.req)) else [],
      w.redeemed + if commits && ev.req.Pair? then AsSeq(Redeemable(w.cfg, ev.req)) else [],
      w.expired + if commits then Dropped(w.cfg, ev.req) else [])
  }

  function Replay(keys: Keys, clock: int, run: seq<Event>): World {
    if run == [] then Start(clock)
    else Step(keys, Replay(keys, clock, run[..|run| - 1]), run[|run| - 1])
  }

  ghost predicate LegalRun(keys: Keys, clock: int, run: seq<Event>) {
    forall i :: 0 <= i < |run| ==> Legal(keys, Replay(keys, clock, run[..i]), run[i])
  }

  // ---------------------------------------------------------------- invariants

  /** A stored client is a grant: same id, same JTI, same scopes as a set, revoked just if revocation returned true. */
  ghost predicate Backed(c: Client, granted: set<TokenClaims>, revoked: set<string>) {
    && (exists g :: g in granted && g.sub == c.id && g.jti == c.tokenJTI && SetOf(g.scopes) == SetOf(c.scopes))
    && (c.revoked <==> c.id in revoked)
  }

  ghost predicate Stored(g: TokenClaims, clients: seq<Client>) {
    exists i :: 0 <= i < |clients| && clients[i].id == g.sub && clients[i].tokenJTI == g.jti
  }

  ghost predicate ClientsMatch(clients: seq<Client>, granted: set<TokenClaims>, revoked: set<string>) {
    && (forall i :: 0 <= i < |clients| ==> Backed(clients[i], granted, revoked))
    && (forall g :: g in granted ==> Stored(g, clients))
    && (forall i, j :: 0 <= i < j < |clients| ==> clients[i].id != clients[j].id)
  }

  ghost predicate IDsMatch(w: World) {
    && w.accepted <= w.granted <= w.minted
    && (forall m :: m in w.minted ==> m.sub in w.spent && m.jti in w.spent)
    && (forall m, n :: m in w.minted && n in w.minted && (m.jti == n.jti || m.sub == n.sub) ==> m == n)
    && w.revoked <= (set g | g in w.granted :: g.sub)
  }

  /** A session is pending with nothing granted, or approved with exactly one grant behind it. */
  ghost predicate SessionMatches(keys: Keys, s: PendingSession, granted: set<TokenClaims>) {
    || (s.status == "pending" && s.token == "" && s.clientID == "" && s.scopes == [])
    || (s.status == "approved" && exists g :: g in granted && Records(keys, s, g))
  }

  ghost predicate Records(keys: Keys, s: PendingSession, g: TokenClaims) {
    s.token == Seal(keys, g) && s.clientID == g.sub && s.scopes == g.scopes && s.expiresAt == g.expiry * SECOND
  }

  ghost predicate SessionsMatch(keys: Keys, sessions: seq<PendingSession>, granted: set<TokenClaims>,
                                spent: set<string>)
  {
    && (forall s :: s in sessions ==> SessionMatches(keys, s, granted) && s.id in spent)
    && DistinctIDs(sessions)
  }

  ghost predicate DistinctIDs(sessions: seq<PendingSession>) {
    forall i, j :: 0 <= i < j < |sessions| ==> sessions[i].id != sessions[j].id
  }

  ghost predicate WellFormedScopes(scopes: seq<string>) {
    forall s :: s in scopes ==> Trimmed(s) && s != ""
  }

  /** Some issued code allows at least these scopes. */
  ghost predicate Covered(scopes: seq<string>, issued: seq<PendingPairCode>) {
    exists p :: p in issued && SetOf(scopes) <= SetOf(p.scopes)
  }

  ghost predicate CodesMatch(w: World) {
    && multiset(w.issued) == multiset(w.cfg.codes) + multiset(w.redeemed) + multiset(w.expired)
    && (forall p :: p in w.issued ==> WellFormedScopes(p.scopes))
    && (forall p :: p in w.expired ==> p.expiresAt <= w.clock)
    && (forall m :: m in w.minted ==> Covered(m.scopes, w.issued))
  }

  ghost predicate Inv(keys: Keys, w: World) {
    && ClientsMatch(w.cfg.clients, w.granted, w.revoked)
    && IDsMatch(w)
    && SessionsMatch(keys, w.cfg.sessions, w.granted, w.spent)
    && CodesMatch(w)
  }

  // ---------------------------------------------------------------- clients

  lemma MoreGrantsBack(c: Client, granted: set<TokenClaims>, revoked: set<string>, g: TokenClaims)
    requires Backed(c, granted, revoked)
    ensures Backed(c, granted + {g}, revoked)
  {
    var h :| h in granted && h.sub == c.id && h.jti == c.tokenJTI && SetOf(h.scopes) == SetOf(c.scopes);
    assert h in granted + {g};
  }

  lemma StoredStays(g: TokenClaims, clients: seq<Client>, c: Client)
    requires Stored(g, clients)
    ensures Stored(g, clients + [c])
  {
    var i :| 0 <= i < |clients| && clients[i].id == g.sub && clients[i].tokenJTI == g.jti;
    assert (clients + [c])[i] == clients[i];
  }

  lemma NewGrantBacks(c: Client, granted: set<TokenClaims>, revoked: set<string>, g: TokenClaims, clients: seq<Client>)
    requires c.id == g.sub && c.tokenJTI == g.jti && SetOf(g.scopes) == SetOf(c.scopes)
    requires !c.revoked && c.id !in revoked
    ensures Backed(c, granted + {g}, revoked) && Stored(g, clients + [c])
  {
    assert g in granted + {g};
    assert (clients + [c])[|clients|] == c;
  }

  lemma AppendClient(clients: seq<Client>, granted: set<TokenClaims>, revoked: set<string>, c: Client, g: TokenClaims)
    requires ClientsMatch(clients, granted, revoked)
    requires c.id == g.sub && c.tokenJTI == g.jti && SetOf(g.scopes) == SetOf(c.scopes)
    requires !c.revoked && c.id !in revoked
    requires forall i :: 0 <= i < |clients| ==> clients[i].id != c.id
    ensures ClientsMatch(clients + [c], granted + {g}, revoked)
  {
    hide Backed, Stored;
    var after, grants := clients + [c], granted + {g};
    NewGrantBacks(c, granted, revoked, g, clients);
    forall i | 0 <= i < |after| ensures Backed(after[i], grants, revoked) {
      if i < |clients| { MoreGrantsBack(clients[i], granted, revoked, g); }
    }
    forall h | h in grants ensures Stored(h, after) {
      if h in granted { StoredStays(h, clients, c); }
    }
  }

  /** Editing a client's `lastSeen`, or marking it revoked once its id counts as revoked, keeps the match. */
  lemma EditClient(clients: seq<Client>, granted: set<TokenClaims>, revoked: set<string>, i: nat, c: Client,
                   also: set<string>)
    requires ClientsMatch(clients, granted, revoked) && i < |clients|
    requires c.id == clients[i].id && c.tokenJTI == clients[i].tokenJTI && c.scopes == clients[i].scopes
    requires also <= {c.id} && c.revoked == (clients[i].revoked || also == {c.id})
    ensures ClientsMatch(clients[i := c], granted, revoked + also)
  {
    hide Backed, Stored;
    var after := clients[i := c];
    forall k | 0 <= k < |after| ensures Backed(after[k], granted, revoked + also) {
      StillBacked(clients[k], after[k], granted, revoked, also);
    }
    forall h | h in granted ensures Stored(h, after) {
      StillStored(h, clients, i, c);
    }
  }

  lemma StillBacked(c: Client, d: Client, granted: set<TokenClaims>, revoked: set<string>, also: set<string>)
    requires Backed(c, granted, revoked)
    requires d.id == c.id && d.tokenJTI == c.tokenJTI && d.scopes == c.scopes
    requires d.revoked == (c.revoked || d.id in also)
    ensures Backed(d, granted, revoked + also)
  {
  }

  lemma StillStored(g: TokenClaims, clients: seq<Client>, i: nat, c: Client)
    requires Stored(g, clients) && i < |clients| && c.id == clients[i].id && c.tokenJTI == clients[i].tokenJTI
    ensures Stored(g, clients[i := c])
  {
    var k :| 0 <= k < |clients| && clients[k].id == g.sub && clients[k].tokenJTI == g.jti;
    var after := clients[i := c];
    assert after[k].id == g.sub && after[k].tokenJTI == g.jti;
  }

  /** A fresh id belongs to no stored client and is not revoked. */
  lemma FreshIsUnused(w: World, id: string)
    requires ClientsMatch(w.cfg.clients, w.granted, w.revoked) && IDsMatch(w) && id !in w.spent
    ensures forall i :: 0 <= i < |w.cfg.clients| ==> w.cfg.clients[i].id != id
    ensures id !in w.revoked
  {
    forall i | 0 <= i < |w.cfg.clients| ensures w.cfg.clients[i].id != id {
      assert Backed(w.cfg.clients[i], w.granted, w.revoked);
    }
  }

  lemma PendingIsIssued(w: World, p: PendingPairCode)
    requires CodesMatch(w) && p in w.cfg.codes
    ensures p in w.issued && WellFormedScopes(p.scopes)
  {
    assert p in multiset(w.cfg.codes);
    assert p in multiset(w.issued);
  }

  /** What a pairing signs has the code's scopes, and the code was issued. */
  lemma RedeemedScopes(w: World, req: Request)
    requires CodesMatch(w) && req.Pair? && Redeemable(w.cfg, req).Some?
    ensures var p := Redeemable(w.cfg, req).value;
      && p in w.cfg.codes && p in w.issued && p.expiresAt > req.t0
      && SetOf(PairedClaims(req, p).scopes) == SetOf(p.scopes)
  {
    var p := Redeemable(w.cfg, req).value;
    assert p in Filter(w.cfg.codes, CodeLive(req.t0));
    FilterMembers(w.cfg.codes, CodeLive(req.t0));
    assert CodeLive(req.t0)(p);
    PendingIsIssued(w, p);
    CleanKeepsSet(p.scopes);
  }

  lemma RequestedIsClean(scopes: seq<string>)
    ensures Clean(Requested(scopes)) == Requested(scopes)
    ensures WellFormedScopes(Requested(scopes))
  {
    CleanIsIdempotent(scopes);
    CleanIsTrimmed(scopes);
    TwoScopesAreClean();
  }

  lemma TwoScopesAreClean()
    ensures Clean(DELEGATED_SCOPES) == DELEGATED_SCOPES
    ensures WellFormedScopes(DELEGATED_SCOPES)
  {
    hide Clean;
    var two := DELEGATED_SCOPES;
    Text.LessIsOrder();
    CleanMeaning(two);
    CleanKeepsSet(two);
    assert SetOf(Clean(two)) == SetOf(two);
    forall x ensures x in Clean(two) <==> x in two {
      assert x in Clean(two) <==> x in SetOf(Clean(two));
      assert x in two <==> x in SetOf(two);
    }
    assert Less("read", "send") by { assert "read"[0] < "send"[0]; }
    Sorting.StrictlySortedUnique(Clean(two), two, Less);
  }

  // ---------------------------------------------------------------- the effect of each kind of event

  /** An event that does not commit leaves the configuration and the history of grants and codes alone. */
  lemma QuietEffect(keys: Keys, w: World, ev: Event)
    requires !Commits(keys, w.cfg, ev)
    ensures var v := Step(keys, w, ev);
      && v.cfg == w.cfg && v.granted == w.granted && v.accepted == w.accepted && v.revoked == w.revoked
      && v.issued == w.issued && v.redeemed == w.redeemed && v.expired == w.expired
      && v.minted == w.minted + AsSet(Minted(keys, w.cfg, ev))
  {
    hide Closure, Minted, NewEntry, Redeemable, Dropped;
  }

  lemma CommitEffect(keys: Keys, w: World, ev: Event)
    requires Commits(keys, w.cfg, ev)
    ensures var v := Step(keys, w, ev);
      && Closure(keys, w.cfg, ev.req) == Ok((v.cfg, Answer(keys, w.cfg, ev.req, ev.io).1))
      && v.minted == w.minted + AsSet(Minted(keys, w.cfg, ev))
      && v.granted == w.granted + AsSet(Minted(keys, w.cfg, ev))
  {
    hide Closure, Minted, NewEntry, Redeemable, Dropped;
  }

  function PairedClient(req: Request, p: PendingPairCode): Client
    requires req.Pair?
  {
    Client(req.newID, TrimSpace(req.clientName), TrimSpace(req.clientType), p.scopes, req.newJTI, req.t0, req.t0, false)
  }

  lemma PairEffect(keys: Keys, w: World, ev: Event)
    requires ev.req.Pair? && Commits(keys, w.cfg, ev)
    ensures Redeemable(w.cfg, ev.req).Some?
    ensures var v, p := Step(keys, w, ev), Redeemable(w.cfg, ev.req).value;
      && v.cfg.clients == w.cfg.clients + [PairedClient(ev.req, p)]
      && v.cfg.sessions == w.cfg.sessions
      && Minted(keys, w.cfg, ev) == Some(PairedClaims(ev.req, p))
      && v.accepted == w.accepted && v.revoked == w.revoked
  {
    hide Seal, Clean, TrimSpace, Filter, TypedCode, Unix, Base64.Encode;
  }

  /** The session an approval works on. */
  function Approvable(cfg: Config, req: Request): nat
    requires req.ApproveSession?
  {
    First(Filter(cfg.sessions, SessionLive(req.t0)), SessionIDIs(TrimSpace(req.sessionID)))
  }

  lemma ApproveEffect(keys: Keys, w: World, ev: Event)
    requires ev.req.ApproveSession? && Commits(keys, w.cfg, ev)
    ensures SetOf(Requested(ev.req.scopes)) <= SetOf(ev.req.approver.scopes)
    ensures var v, live := Step(keys, w, ev), Filter(w.cfg.sessions, SessionLive(ev.req.t0));
      var i := Approvable(w.cfg, ev.req);
      && i < |live| && live[i].expiresAt > ev.req.t0 && live[i].id == TrimSpace(ev.req.sessionID)
      && v.cfg.clients == w.cfg.clients
         + [Client(ev.req.newID, live[i].clientName, live[i].clientType, Requested(ev.req.scopes), ev.req.newJTI,
                   ev.req.t0, ev.req.t0, false)]
      && v.cfg.sessions == live[i := Approve(keys, live[i], ev.req)]
      && v.cfg.codes == w.cfg.codes
      && Minted(keys, w.cfg, ev) == Some(DelegatedClaims(ev.req))
      && v.accepted == w.accepted && v.revoked == w.revoked
  {
    hide Seal, Clean, TrimSpace, Filter, Unix, Requested;
  }

  /** Requests other than Pair and ApproveSession sign nothing and grant nothing. */
  lemma OtherEffect(keys: Keys, w: World, ev: Event)
    requires !ev.req.Pair? && !ev.req.ApproveSession?
    ensures var v := Step(keys, w, ev); v.minted == w.minted && v.granted == w.granted
    ensures !ev.req.Authenticate? && !ev.req.RevokeClient? ==> var v := Step(keys, w, ev);
      v.cfg.clients == w.cfg.clients && v.accepted == w.accepted && v.revoked == w.revoked
  {
    hide Seal, Clean, TrimSpace, Filter, Verify;
  }

  lemma AuthenticateEffect(keys: Keys, w: World, ev: Event)
    requires ev.req.Authenticate? && Commits(keys, w.cfg, ev)
    ensures Open(keys, TrimSpace(ev.req.token)).Ok?
    ensures var v, claims := Step(keys, w, ev), Open(keys, TrimSpace(ev.req.token)).value;
      var i := First(w.cfg.clients, SpeaksFor(claims));
      && Unix(ev.req.t0) < claims.expiry
      && i < |w.cfg.clients|
      && v.cfg == w.cfg.(clients := w.cfg.clients[i := w.cfg.clients[i].(lastSeen := ev.req.t1)])
      && v.accepted == w.accepted + {claims} && v.revoked == w.revoked
  {
    hide TrimSpace, Open, Unix;
  }

  lemma RevokeEffect(keys: Keys, w: World, ev: Event)
    requires ev.req.RevokeClient? && Commits(keys, w.cfg, ev)
    ensures var v, id := Step(keys, w, ev), TrimSpace(ev.req.clientID);
      var i := First(w.cfg.clients, ClientIDIs(id));
      if i == |w.cfg.clients| then v.cfg == w.cfg && v.accepted == w.accepted && v.revoked == w.revoked
      else
        && v.cfg == w.cfg.(clients := w.cfg.clients[i := w.cfg.clients[i].(revoked := true)])
        && v.accepted == w.accepted && v.revoked == w.revoked + {id} && w.cfg.clients[i].id == id
  {
    hide TrimSpace;
  }

  lemma StepClients(keys: Keys, w: World, ev: Event)
    requires Inv(keys, w) && Legal(keys, w, ev)
    ensures var v := Step(keys, w, ev); ClientsMatch(v.cfg.clients, v.granted, v.revoked)
  {
    hide ClientsMatch, Step, Commits, Minted, CodesMatch, IDsMatch, Requested, Approvable, Redeemable;
    var clients := w.cfg.clients;
    if !Commits(keys, w.cfg, ev) {
      QuietEffect(keys, w, ev);
    } else {
      CommitEffect(keys, w, ev);
      match ev.req
      case Pair(_, _, _, newID, _, _, _) =>
        PairEffect(keys, w, ev);
        var p := Redeemable(w.cfg, ev.req).value;
        RedeemedScopes(w, ev.req);
        FreshIsUnused(w, newID);
        AppendClient(clients, w.granted, w.revoked, PairedClient(ev.req, p), PairedClaims(ev.req, p));
      case ApproveSession(_, _, _, newID, _, _, _) =>
        ApproveEffect(keys, w, ev);
        RequestedIsClean(ev.req.scopes);
        FreshIsUnused(w, newID);
        AppendClient(clients, w.granted, w.revoked, Step(keys, w, ev).cfg.clients[|clients|], DelegatedClaims(ev.req));
      case Authenticate(token, _, t1) =>
        OtherEffect(keys, w, ev);
        AuthenticateEffect(keys, w, ev);
        var i := First(clients, SpeaksFor(Open(keys, TrimSpace(token)).value));
        EditClient(clients, w.granted, w.revoked, i, clients[i].(lastSeen := t1), {});
        assert w.revoked + {} == w.revoked;
      case RevokeClient(id) =>
        OtherEffect(keys, w, ev);
        RevokeEffect(keys, w, ev);
        var i := First(clients, ClientIDIs(TrimSpace(id)));
        if i < |clients| {
          EditClient(clients, w.granted, w.revoked, i, clients[i].(revoked := true), {clients[i].id});
        }
      case _ =>
        OtherEffect(keys, w, ev);
    }
  }

  // ---------------------------------------------------------------- ids and grants

  /** Claims that match a stored client are exactly the claims that client was granted. */
  lemma SpeakerIsGranted(w: World, c: TokenClaims, i: nat)
    requires ClientsMatch(w.cfg.clients, w.granted, w.revoked) && IDsMatch(w)
    requires c in w.minted && i < |w.cfg.clients|
    requires w.cfg.clients[i].id == c.sub && w.cfg.clients[i].tokenJTI == c.jti
    ensures c in w.granted
    ensures SetOf(w.cfg.clients[i].scopes) == SetOf(c.scopes)
  {
    assert Backed(w.cfg.clients[i], w.granted, w.revoked);
  }

  /** Signing claims with fresh ids keeps the ids apart, whether or not the grant commits. */
  lemma SignFresh(w: World, v: World, m: TokenClaims)
    requires IDsMatch(w)
    requires m.sub !in w.spent && m.jti !in w.spent
    requires v.minted == w.minted + {m} && v.spent == w.spent + {m.sub, m.jti}
    requires v.granted == w.granted || v.granted == w.granted + {m}
    requires v.accepted == w.accepted && v.revoked == w.revoked
    ensures IDsMatch(v)
  {
    assert forall a :: a in w.minted ==> a.sub != m.sub && a.jti != m.jti;
    RevokedStaysGranted(w, v);
  }

  lemma RevokedStaysGranted(w: World, v: World)
    requires w.revoked <= (set g | g in w.granted :: g.sub) && w.granted <= v.granted && v.revoked == w.revoked
    ensures v.revoked <= (set g | g in v.granted :: g.sub)
  {
  }

  lemma StepIDs(keys: Keys, w: World, ev: Event)
    requires Inv(keys, w) && Legal(keys, w, ev)
    ensures IDsMatch(Step(keys, w, ev))
  {
    hide Closure, Answer, Minted, CodesMatch, SessionsMatch, ClientsMatch, Requested, Redeemable, Seal, Clean, Unix;
    var v := Step(keys, w, ev);
    if ev.req.Pair? || ev.req.ApproveSession? {
      MintedIsNew(keys, w, ev);
      var m := Minted(keys, w.cfg, ev);
      if Commits(keys, w.cfg, ev) {
        CommitEffect(keys, w, ev);
        if ev.req.Pair? { PairEffect(keys, w, ev); } else { ApproveEffect(keys, w, ev); }
      } else {
        QuietEffect(keys, w, ev);
      }
      if m.Some? { SignFresh(w, v, m.value); }
    } else {
      OtherEffect(keys, w, ev);
      if Commits(keys, w.cfg, ev) {
        CommitEffect(keys, w, ev);
        if ev.req.Authenticate? {
          AuthenticateEffect(keys, w, ev);
          var claims := Open(keys, TrimSpace(ev.req.token)).value;
          OpenMeans(keys, TrimSpace(ev.req.token), claims);
          SignedWasMinted(keys, TrimSpace(ev.req.token), w.minted, claims);
          SpeakerIsGranted(w, claims, First(w.cfg.clients, SpeaksFor(claims)));
        } else if ev.req.RevokeClient? {
          RevokeEffect(keys, w, ev);
          var i := First(w.cfg.clients, ClientIDIs(TrimSpace(ev.req.clientID)));
          if i < |w.cfg.clients| { StoredIDIsGranted(w, i); }
        }
      } else {
        QuietEffect(keys, w, ev);
      }
    }
  }

  lemma StoredIDIsGranted(w: World, i: nat)
    requires ClientsMatch(w.cfg.clients, w.granted, w.revoked) && i < |w.cfg.clients|
    ensures w.cfg.clients[i].id in (set g | g in w.granted :: g.sub)
  {
    assert Backed(w.cfg.clients[i], w.granted, w.revoked);
  }

  lemma MintedIsNew(keys: Keys, w: World, ev: Event)
    requires ev.req.Pair? || ev.req.ApproveSession?
    ensures var m := Minted(keys, w.cfg, ev);
      m.Some? ==> m.value.sub == ev.req.newID && m.value.jti == ev.req.newJTI
  {
    hide Ran, Clean, Unix, Redeemable;
  }

  // ---------------------------------------------------------------- sessions

  lemma {:induction false} FilterDistinctIDs(sessions: seq<PendingSession>, p: PendingSession -> bool)
    requires DistinctIDs(sessions)
    ensures DistinctIDs(Filter(sessions, p))
  {
    if sessions != [] {
      var front, last := sessions[..|sessions| - 1], sessions[|sessions| - 1];
      FilterDistinctIDs(front, p);
      FilterMembers(front, p);
      forall s | s in Filter(front, p) ensures s.id != last.id {
        var k :| 0 <= k < |front| && front[k] == s;
        assert sessions[k].id != last.id;
      }
    }
  }

  lemma MoreGrantsMatch(keys: Keys, s: PendingSession, granted: set<TokenClaims>, more: set<TokenClaims>)
    requires SessionMatches(keys, s, granted) && granted <= more
    ensures SessionMatches(keys, s, more)
  {
    if s.status == "approved" {
      var g :| g in granted && Records(keys, s, g);
      assert g in more;
    }
  }

  /** Dropping sessions, and granting more, keeps the match. */
  lemma KeepSessions(keys: Keys, sessions: seq<PendingSession>, p: PendingSession -> bool,
                     granted: set<TokenClaims>, spent: set<string>, more: set<TokenClaims>, wider: set<string>)
    requires SessionsMatch(keys, sessions, granted, spent) && granted <= more && spent <= wider
    ensures SessionsMatch(keys, Filter(sessions, p), more, wider)
    ensures SessionsMatch(keys, sessions, more, wider)
  {
    FilterDistinctIDs(sessions, p);
    FilterMembers(sessions, p);
    forall s | s in sessions ensures SessionMatches(keys, s, more) {
      MoreGrantsMatch(keys, s, granted, more);
    }
  }

  lemma ApprovedMatches(keys: Keys, s: PendingSession, req: Request, granted: set<TokenClaims>)
    requires req.ApproveSession? && DelegatedClaims(req) in granted
    ensures SessionMatches(keys, Approve(keys, s, req), granted)
    ensures Records(keys, Approve(keys, s, req), DelegatedClaims(req))
  {
    RequestedIsClean(req.scopes);
  }

  lemma AppendSession(keys: Keys, sessions: seq<PendingSession>, granted: set<TokenClaims>, spent: set<string>,
                      s: PendingSession)
    requires SessionsMatch(keys, sessions, granted, spent) && SessionMatches(keys, s, granted) && s.id in spent
    requires forall t :: t in sessions ==> t.id != s.id
    ensures SessionsMatch(keys, sessions + [s], granted, spent)
  {
    hide SessionMatches;
  }

  lemma ReplaceSession(keys: Keys, sessions: seq<PendingSession>, granted: set<TokenClaims>, spent: set<string>,
                       i: nat, s: PendingSession)
    requires SessionsMatch(keys, sessions, granted, spent) && SessionMatches(keys, s, granted)
    requires i < |sessions| && s.id == sessions[i].id
    ensures SessionsMatch(keys, sessions[i := s], granted, spent)
  {
    hide SessionMatches;
    assert sessions[i] in sessions;
    var after := sessions[i := s];
    forall k, l | 0 <= k < l < |after| ensures after[k].id != after[l].id {
      assert sessions[k].id != sessions[l].id;
    }
  }

  lemma FreshSessionID(keys: Keys, sessions: seq<PendingSession>, p: PendingSession -> bool, granted: set<TokenClaims>,
                       spent: set<string>, id: string)
    requires SessionsMatch(keys, sessions, granted, spent) && id !in spent
    ensures forall t :: t in Filter(sessions, p) ==> t.id != id
  {
    FilterMembers(sessions, p);
  }

  /** Requests other than CreateSession and ApproveSession leave the sessions alone. */
  lemma OtherSessionsEffect(keys: Keys, w: World, ev: Event)
    requires !ev.req.CreateSession? && !ev.req.ApproveSession?
    ensures Step(keys, w, ev).cfg.sessions == w.cfg.sessions
  {
    hide Seal, Clean, TrimSpace, Filter, Verify;
  }

  lemma CreateEffect(keys: Keys, w: World, ev: Event)
    requires ev.req.CreateSession? && Commits(keys, w.cfg, ev)
    ensures var v := Step(keys, w, ev);
      v.cfg.sessions == Filter(w.cfg.sessions, SessionLive(ev.req.t2)) + [NewSession(ev.req)]
  {
    hide TrimSpace, Filter;
  }

  lemma StepSessions(keys: Keys, w: World, ev: Event)
    requires Inv(keys, w) && Legal(keys, w, ev)
    ensures var v := Step(keys, w, ev); SessionsMatch(keys, v.cfg.sessions, v.granted, v.spent)
  {
    hide ClientsMatch, IDsMatch, CodesMatch, SessionMatches, SessionsMatch, Closure, Answer, Minted, Requested, Filter,
      Seal, Commits, Step, Approve, Approvable;
    var v := Step(keys, w, ev);
    assert w.granted <= v.granted && v.spent == w.spent + NewIDs(ev.req) by { GrantsGrow(keys, w, ev); }
    var sessions := w.cfg.sessions;
    if !Commits(keys, w.cfg, ev) {
      QuietEffect(keys, w, ev);
      KeepSessions(keys, sessions, SessionLive(0), w.granted, w.spent, v.granted, v.spent);
    } else {
      CommitEffect(keys, w, ev);
      match ev.req
      case CreateSession(_, _, newID, _, _, _, t2) =>
        CreateEffect(keys, w, ev);
        KeepSessions(keys, sessions, SessionLive(t2), w.granted, w.spent, v.granted, v.spent);
        FreshSessionID(keys, sessions, SessionLive(t2), w.granted, w.spent, newID);
        NewSessionMatches(keys, ev.req, v.granted);
        AppendSession(keys, Filter(sessions, SessionLive(t2)), v.granted, v.spent, NewSession(ev.req));
      case ApproveSession(_, _, _, _, _, t0, _) =>
        ApproveEffect(keys, w, ev);
        KeepSessions(keys, sessions, SessionLive(t0), w.granted, w.spent, v.granted, v.spent);
        var i, live := Approvable(w.cfg, ev.req), Filter(sessions, SessionLive(t0));
        ApprovedMatches(keys, live[i], ev.req, v.granted);
        ApproveKeepsID(keys, live[i], ev.req);
        ReplaceSession(keys, live, v.granted, v.spent, i, Approve(keys, live[i], ev.req));
      case _ =>
        OtherSessionsEffect(keys, w, ev);
        KeepSessions(keys, sessions, SessionLive(0), w.granted, w.spent, v.granted, v.spent);
    }
  }

  lemma GrantsGrow(keys: Keys, w: World, ev: Event)
    ensures var v := Step(keys, w, ev);
      && w.minted <= v.minted && w.granted <= v.granted && w.accepted <= v.accepted && w.revoked <= v.revoked
      && v.spent == w.spent + NewIDs(ev.req)
  {
    hide Answer, Minted, Commits, NewEntry, Redeemable, Dropped, NewIDs, Latest;
  }

  lemma ApproveKeepsID(keys: Keys, s: PendingSession, req: Request)
    requires req.ApproveSession?
    ensures Approve(keys, s, req).id == s.id
  {
  }

  lemma NewSessionMatches(keys: Keys, req: Request, granted: set<TokenClaims>)
    requires req.CreateSession?
    ensures SessionMatches(keys, NewSession(req), granted) && NewSession(req).id == req.newID
  {
  }

  // ---------------------------------------------------------------- codes

  lemma {:induction false} LiveAndDead(codes: seq<PendingPairCode>, now: int)
    ensures multiset(codes) == multiset(Filter(codes, CodeLive(now))) + multiset(Filter(codes, CodeDead(now)))
  {
    if codes != [] {
      var front, last := codes[..|codes| - 1], codes[|codes| - 1];
      LiveAndDead(front, now);
      assert codes == front + [last];
    }
  }

  /** How a request changes the pending codes: drop the dead, then add the new entry or take the redeemed one. */
  lemma ClosureCodes(keys: Keys, cfg: Config, req: Request)
    requires Closure(keys, cfg, req).Ok?
    ensures var codes := Closure(keys, cfg, req).value.0.codes;
      var live := if PruneInstant(req).Some? then Filter(cfg.codes, CodeLive(PruneInstant(req).value)) else cfg.codes;
      if req.Pair? then
        var i := First(live, CodeIs(TypedCode(req.code)));
        i < |live| && Redeemable(cfg, req) == Some(live[i]) && codes == live[..i] + live[i + 1..]
      else codes == live + AsSeq(NewEntry(cfg, req))
  {
    hide Seal, Clean, TrimSpace, Filter, First, Verify, TypedCode, Unix, Approve, Requested, SessionReply, PairedClaims,
      DelegatedClaims, NewSession, GeneratedCode;
  }

  lemma CodesEffect(keys: Keys, w: World, ev: Event)
    requires Commits(keys, w.cfg, ev)
    ensures var codes := Step(keys, w, ev).cfg.codes;
      var instant := PruneInstant(ev.req);
      var live := if instant.Some? then Filter(w.cfg.codes, CodeLive(instant.value)) else w.cfg.codes;
      if ev.req.Pair? then
        var i := First(live, CodeIs(TypedCode(ev.req.code)));
        i < |live| && Redeemable(w.cfg, ev.req) == Some(live[i]) && codes == live[..i] + live[i + 1..]
      else codes == live + AsSeq(NewEntry(w.cfg, ev.req))
  {
    hide Closure, Answer, Step, Filter, First, TypedCode, Redeemable, NewEntry, PruneInstant;
    CommitEffect(keys, w, ev);
    ClosureCodes(keys, w.cfg, ev.req);
  }

  lemma CodesHistory(keys: Keys, w: World, ev: Event)
    requires Commits(keys, w.cfg, ev)
    ensures var v := Step(keys, w, ev);
      && v.issued == w.issued + AsSeq(NewEntry(w.cfg, ev.req))
      && v.redeemed == w.redeemed + (if ev.req.Pair? then AsSeq(Redeemable(w.cfg, ev.req)) else [])
      && v.expired == w.expired + Dropped(w.cfg, ev.req)
  {
    hide NewEntry, Redeemable, Dropped, Closure, Minted;
  }

  lemma RemoveOne<T>(s: seq<T>, i: nat)
    requires i < |s|
    ensures multiset(s) == multiset(s[..i] + s[i + 1..]) + multiset{s[i]}
  {
    assert s == s[..i] + [s[i]] + s[i + 1..];
  }

  lemma CodesAddUp(w: World)
    requires CodesMatch(w)
    ensures multiset(w.issued) == multiset(w.cfg.codes) + multiset(w.redeemed) + multiset(w.expired)
  {
    hide Covered, WellFormedScopes;
  }

  /** Conservation: what was issued is pending, redeemed or expired. */
  lemma StepConserves(keys: Keys, w: World, ev: Event)
    requires CodesMatch(w) && Commits(keys, w.cfg, ev)
    ensures var v := Step(keys, w, ev);
      multiset(v.issued) == multiset(v.cfg.codes) + multiset(v.redeemed) + multiset(v.expired)
  {
    hide Step, Commits, NewEntry, Redeemable, TypedCode, Filter, Covered, First, CodesMatch;
    assert multiset(w.issued) == multiset(w.cfg.codes) + multiset(w.redeemed) + multiset(w.expired) by {
      CodesAddUp(w);
    }
    CodesEffect(keys, w, ev);
    CodesHistory(keys, w, ev);
    var v, codes, instant := Step(keys, w, ev), w.cfg.codes, PruneInstant(ev.req);
    var live := if instant.Some? then Filter(codes, CodeLive(instant.value)) else codes;
    var dead := Dropped(w.cfg, ev.req);
    assert multiset(codes) == multiset(live) + multiset(dead) by {
      if instant.Some? { LiveAndDead(codes, instant.value); }
    }
    if ev.req.Pair? {
      PairAddsNoEntry(w.cfg, ev.req);
      var i := First(live, CodeIs(TypedCode(ev.req.code)));
      RemoveOne(live, i);
      Balance(multiset(w.issued), multiset(live), multiset(dead), multiset(w.redeemed), multiset(w.expired),
              multiset(v.cfg.codes), multiset{}, multiset{live[i]});
      assert v.redeemed == w.redeemed + [live[i]];
      assert v.issued == w.issued;
    } else {
      var entry := AsSeq(NewEntry(w.cfg, ev.req));
      Balance(multiset(w.issued), multiset(live), multiset(dead), multiset(w.redeemed), multiset(w.expired),
              multiset(v.cfg.codes), multiset(entry), multiset{});
      assert v.redeemed == w.redeemed;
    }
  }

  lemma Balance<T>(issued: multiset<T>, live: multiset<T>, dead: multiset<T>, redeemed: multiset<T>,
                   expired: multiset<T>, pending: multiset<T>, added: multiset<T>, taken: multiset<T>)
    requires issued == (live + dead) + redeemed + expired
    requires pending + taken == live + added
    ensures issued + added == pending + (redeemed + taken) + (expired + dead)
  {
    var after := pending + (redeemed + taken) + (expired + dead);
    forall x ensures (issued + added)[x] == after[x] {
      assert (pending + taken)[x] == (live + added)[x];
    }
    assert issued + added == after;
  }

  lemma PairAddsNoEntry(cfg: Config, req: Request)
    requires req.Pair? || req.ApproveSession?
    ensures NewEntry(cfg, req) == None
  {
  }

  lemma NewEntryScopes(cfg: Config, req: Request)
    requires NewEntry(cfg, req).Some?
    ensures WellFormedScopes(NewEntry(cfg, req).value.scopes)
  {
    if req.GeneratePairingCode? {
      CleanIsTrimmed(if req.scopes == [] then DEFAULT_SCOPES else req.scopes);
    }
  }

  lemma CoveredStays(scopes: seq<string>, issued: seq<PendingPairCode>, more: seq<PendingPairCode>)
    requires Covered(scopes, issued)
    ensures Covered(scopes, issued + more)
  {
    var p :| p in issued && SetOf(scopes) <= SetOf(p.scopes);
    assert p in issued + more;
  }

  /** Whatever an event signs is covered by a code issued before. */
  lemma MintedIsCovered(keys: Keys, w: World, ev: Event)
    requires Inv(keys, w) && Legal(keys, w, ev) && Minted(keys, w.cfg, ev).Some?
    ensures Covered(Minted(keys, w.cfg, ev).value.scopes, w.issued)
  {
    hide ClientsMatch, SessionsMatch, Closure, Redeemable, Unix, Clean, Requested;
    if ev.req.Pair? {
      RedeemedScopes(w, ev.req);
    } else {
      RequestedIsClean(ev.req.scopes);
      var approver := ev.req.approver;
      assert Covered(approver.scopes, w.issued);
      var p :| p in w.issued && SetOf(approver.scopes) <= SetOf(p.scopes);
      EarlyApproval(keys, w.cfg, ev);
      assert SetOf(Minted(keys, w.cfg, ev).value.scopes) <= SetOf(p.scopes);
    }
  }

  lemma EarlyApproval(keys: Keys, cfg: Config, ev: Event)
    requires ev.req.ApproveSession? && Ran(keys, cfg, ev)
    ensures SetOf(Requested(ev.req.scopes)) <= SetOf(ev.req.approver.scopes)
  {
    hide Closure;
  }

  lemma StepCodes(keys: Keys, w: World, ev: Event)
    requires Inv(keys, w) && Legal(keys, w, ev)
    ensures CodesMatch(Step(keys, w, ev))
  {
    hide ClientsMatch, IDsMatch, SessionsMatch, Closure, Answer, Minted, NewEntry, Redeemable, Covered, Filter, Ran,
      Legal, WellFormedScopes, Latest, NewIDs, Commits;
    var v := Step(keys, w, ev);
    if Minted(keys, w.cfg, ev).Some? { MintedIsCovered(keys, w, ev); }
    ClockAdvances(keys, w, ev);
    if !Commits(keys, w.cfg, ev) {
      QuietEffect(keys, w, ev);
    } else {
      CommitEffect(keys, w, ev);
      StepConserves(keys, w, ev);
      CodesHistory(keys, w, ev);
      if NewEntry(w.cfg, ev.req).Some? { NewEntryScopes(w.cfg, ev.req); }
      forall m | m in v.minted ensures Covered(m.scopes, v.issued) {
        CoveredStays(m.scopes, w.issued, AsSeq(NewEntry(w.cfg, ev.req)));
      }
      if PruneInstant(ev.req).Some? { FilterMembers(w.cfg.codes, CodeDead(PruneInstant(ev.req).value)); }
    }
  }

  lemma ClockAdvances(keys: Keys, w: World, ev: Event)
    requires Legal(keys, w, ev)
    ensures w.clock <= Step(keys, w, ev).clock
    ensures PruneInstant(ev.req).Some? ==> PruneInstant(ev.req).value <= Step(keys, w, ev).clock
  {
    hide Answer, Minted, Commits, NewEntry, Redeemable, Dropped, Open;
  }

  // ---------------------------------------------------------------- whole runs

  lemma StepKeepsInv(keys: Keys, w: World, ev: Event)
    requires Inv(keys, w) && Legal(keys, w, ev)
    ensures Inv(keys, Step(keys, w, ev))
  {
    hide Step, Legal, ClientsMatch, IDsMatch, SessionsMatch, CodesMatch;
    StepClients(keys, w, ev);
    StepIDs(keys, w, ev);
    StepSessions(keys, w, ev);
    StepCodes(keys, w, ev);
  }

  lemma StartInv(keys: Keys, clock: int)
    ensures Inv(keys, Start(clock))
  {
  }

  /** Every legal run keeps the invariants. */
  lemma {:induction false} RunsKeepInv(keys: Keys, clock: int, run: seq<Event>)
    requires LegalRun(keys, clock, run)
    ensures Inv(keys, Replay(keys, clock, run))
  {
    hide Legal, Inv, Step;
    if run != [] {
      var n := |run| - 1;
      assert forall i :: 0 <= i < n ==> run[..n][..i] == run[..i];
      RunsKeepInv(keys, clock, run[..n]);
      StepKeepsInv(keys, Replay(keys, clock, run[..n]), run[n]);
    } else {
      StartInv(keys, clock);
    }
  }
}
