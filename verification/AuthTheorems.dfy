/** What callers of the auth service can rely on, over every legal run. */
module AuthTheorems {
  import opened Basics
  import opened Text
  import opened Scopes
  import opened Tokens
  import opened Store
  import opened Auth
  import opened AuthRuns

  // ---------------------------------------------------------------- who is let in

  lemma LegalPrefix(keys: Keys, clock: int, run: seq<Event>, n: nat)
    requires LegalRun(keys, clock, run) && n <= |run|
    ensures LegalRun(keys, clock, run[..n])
  {
    assert forall i :: 0 <= i < n ==> run[..n][..i] == run[..i];
  }

  /** The token carries granted claims under a signature that verifies; unexpired, their client not revoked. */
  ghost predicate Admissible(keys: Keys, w: World, token: string, t0: int, claims: TokenClaims) {
    && Signed(keys, TrimSpace(token), claims) && claims in w.granted
    && t0 < claims.expiry * SECOND && claims.sub !in w.revoked
  }

  /** In a world that keeps the invariants, which tokens authenticate. */
  lemma AuthenticateByGrants(keys: Keys, w: World, token: string, t0: int, t1: int)
    requires Inv(keys, w) && Unforged(keys, TrimSpace(token), w.minted)
    ensures var reply := Answer(keys, w.cfg, Request.Authenticate(token, t0, t1), Works).1;
      && (reply.Authenticated? <==> exists claims :: Admissible(keys, w, token, t0, claims))
      && (reply.Authenticated? ==>
            && Admissible(keys, w, token, t0, reply.claims) && reply.clientID == reply.claims.sub
            && SetOf(reply.scopes) == SetOf(reply.claims.scopes))
  {
    hide Signed, TrimSpace, SessionsMatch, CodesMatch, Verify, Unforged;
    forall claims ensures Signed(keys, TrimSpace(token), claims) && t0 < claims.expiry * SECOND
      <==> Verify(keys, TrimSpace(token), t0) == Ok(claims)
    {
      VerifyMeans(keys, TrimSpace(token), t0, claims);
    }
    var verified := Verify(keys, TrimSpace(token), t0);
    if verified.Ok? {
      var c, clients := verified.value, w.cfg.clients;
      SignedWasMinted(keys, TrimSpace(token), w.minted, c);
      var i := First(clients, SpeaksFor(c));
      if i < |clients| {
        SpeakerIsGranted(w, c, i);
        assert Backed(clients[i], w.granted, w.revoked);
        assert Admissible(keys, w, token, t0, c);
      } else if c in w.granted {
        assert Stored(c, clients);
        var k :| 0 <= k < |clients| && clients[k].id == c.sub && clients[k].tokenJTI == c.jti;
        assert !SpeaksFor(c)(clients[k]);
        assert Backed(clients[k], w.granted, w.revoked);
      }
    }
  }

  /**
   Authenticate accepts a token at instant `t0` if and only if the token carries, under a signature that verifies,
   claims that an earlier committed Pair or ApproveSession granted, `t0` is before their expiry second, and their client
   has not been revoked.
  */
  lemma {:induction false} AuthenticateIsExact(keys: Keys, clock: int, run: seq<Event>, token: string, t0: int, t1: int)
    requires LegalRun(keys, clock, run + [Event(Request.Authenticate(token, t0, t1), Works)])
    ensures var w := Replay(keys, clock, run);
      var reply := Answer(keys, w.cfg, Request.Authenticate(token, t0, t1), Works).1;
      && (reply.Authenticated? <==> exists claims :: Admissible(keys, w, token, t0, claims))
      && (reply.Authenticated? ==>
            && Admissible(keys, w, token, t0, reply.claims) && reply.clientID == reply.claims.sub
            && SetOf(reply.scopes) == SetOf(reply.claims.scopes))
  {
    hide Inv, Answer, Admissible, TrimSpace, Replay, Unforged;
    var longer := run + [Event(Request.Authenticate(token, t0, t1), Works)];
    assert longer[..|run|] == run && longer[|run|] == Event(Request.Authenticate(token, t0, t1), Works);
    LegalPrefix(keys, clock, longer, |run|);
    RunsKeepInv(keys, clock, run);
    assert Legal(keys, Replay(keys, clock, longer[..|run|]), longer[|run|]);
    AuthenticateByGrants(keys, Replay(keys, clock, run), token, t0, t1);
  }

  ghost predicate GrantedAt(keys: Keys, clock: int, run: seq<Event>, i: nat, g: TokenClaims)
    requires i < |run|
  {
    var w := Replay(keys, clock, run[..i]);
    Commits(keys, w.cfg, run[i]) && Minted(keys, w.cfg, run[i]) == Some(g)
  }

  ghost predicate RevokedAt(keys: Keys, clock: int, run: seq<Event>, i: nat, id: string)
    requires i < |run|
  {
    var w := Replay(keys, clock, run[..i]);
    && Answer(keys, w.cfg, run[i].req, run[i].io).1 == Revoked(true)
    && run[i].req.RevokeClient? && TrimSpace(run[i].req.clientID) == id
  }

  /** Granted means: some committed request of the run minted it. */
  lemma {:induction false} GrantedMeans(keys: Keys, clock: int, run: seq<Event>, g: TokenClaims)
    ensures g in Replay(keys, clock, run).granted <==> exists i: nat :: i < |run| && GrantedAt(keys, clock, run, i, g)
  {
    hide Commits, Minted, Answer, NewEntry, Redeemable, Dropped, NewIDs, Latest;
    if run != [] {
      var n := |run| - 1;
      GrantedMeans(keys, clock, run[..n], g);
      forall i: nat | i < n ensures GrantedAt(keys, clock, run[..n], i, g) <==> GrantedAt(keys, clock, run, i, g) {
        assert run[..n][..i] == run[..i];
      }
      assert run[..n] == run[..|run| - 1];
      if g in Replay(keys, clock, run).granted && g !in Replay(keys, clock, run[..n]).granted {
        assert GrantedAt(keys, clock, run, n, g);
      }
    }
  }

  lemma RevokedReplyMeansRequest(keys: Keys, cfg: Config, ev: Event)
    requires Answer(keys, cfg, ev.req, ev.io).1 == Revoked(true)
    ensures ev.req.RevokeClient?
  {
    hide Seal, Clean, TrimSpace, Filter, Verify, Unix;
  }

  /** Revoked means: some RevokeClient of the run answered true for that id. */
  lemma {:induction false} RevokedMeans(keys: Keys, clock: int, run: seq<Event>, id: string)
    ensures id in Replay(keys, clock, run).revoked <==> exists i: nat :: i < |run| && RevokedAt(keys, clock, run, i, id)
  {
    hide Commits, Minted, Answer, NewEntry, Redeemable, Dropped, NewIDs, Latest, TrimSpace;
    if run != [] {
      var n := |run| - 1;
      RevokedMeans(keys, clock, run[..n], id);
      forall i: nat | i < n ensures RevokedAt(keys, clock, run[..n], i, id) <==> RevokedAt(keys, clock, run, i, id) {
        assert run[..n][..i] == run[..i];
      }
      assert run[..n] == run[..|run| - 1];
      var w := Replay(keys, clock, run[..n]);
      if Answer(keys, w.cfg, run[n].req, run[n].io).1 == Revoked(true) {
        RevokedReplyMeansRequest(keys, w.cfg, run[n]);
      }
      if id in Replay(keys, clock, run).revoked && id !in w.revoked {
        assert RevokedAt(keys, clock, run, n, id);
      }
    }
  }

  /** A successful Pair hands out the sealed token of the claims it granted. */
  lemma PairHandsOutGrant(keys: Keys, w: World, ev: Event)
    requires ev.req.Pair? && Answer(keys, w.cfg, ev.req, ev.io).1.Paired?
    ensures Commits(keys, w.cfg, ev) && Minted(keys, w.cfg, ev).Some?
    ensures var reply, g := Answer(keys, w.cfg, ev.req, ev.io).1, Minted(keys, w.cfg, ev).value;
      reply.token == Seal(keys, g) && reply.clientID == g.sub && reply.expiresAt == g.expiry * SECOND
      && g in Step(keys, w, ev).granted
  {
    hide Seal, Clean, TrimSpace, Filter, TypedCode, Unix;
  }

  /**
   A successful ApproveSession hands out the sealed token of the claims it granted, with scopes within the approver's,
   and stores what it answers under the session's id.
  */
  lemma ApproveHandsOutGrant(keys: Keys, w: World, ev: Event)
    requires ev.req.ApproveSession? && Answer(keys, w.cfg, ev.req, ev.io).1.SessionIs?
    ensures Commits(keys, w.cfg, ev) && Minted(keys, w.cfg, ev).Some?
    ensures var reply, g := Answer(keys, w.cfg, ev.req, ev.io).1, Minted(keys, w.cfg, ev).value;
      && reply.id == TrimSpace(ev.req.sessionID) && reply.status == "approved"
      && reply.token == Seal(keys, g) && reply.clientID == g.sub && reply.expiresAt == g.expiry * SECOND
      && SetOf(reply.scopes) == SetOf(g.scopes) <= SetOf(ev.req.approver.scopes)
      && g in Step(keys, w, ev).granted
      && exists s :: s in Step(keys, w, ev).cfg.sessions && SessionReply(s) == reply
  {
    hide Step, Seal, Clean, TrimSpace, Filter, First, Unix, Approve, Requested, Minted, MintClaims;
    ApprovalCommits(keys, w.cfg, ev);
    ApproveEffect(keys, w, ev);
    CommitEffect(keys, w, ev);
    var live, i := Filter(w.cfg.sessions, SessionLive(ev.req.t0)), Approvable(w.cfg, ev.req);
    var s := Approve(keys, live[i], ev.req);
    ApprovedContent(keys, live[i], ev.req);
    assert live[i := s][i] == s;
    assert s in Step(keys, w, ev).cfg.sessions;
  }

  lemma ApprovalCommits(keys: Keys, cfg: Config, ev: Event)
    requires ev.req.ApproveSession? && Answer(keys, cfg, ev.req, ev.io).1.SessionIs?
    ensures Commits(keys, cfg, ev)
    ensures var live := Filter(cfg.sessions, SessionLive(ev.req.t0));
      var i := Approvable(cfg, ev.req);
      i < |live| && Answer(keys, cfg, ev.req, ev.io).1 == SessionReply(Approve(keys, live[i], ev.req))
  {
    hide Seal, Clean, TrimSpace, Filter, First, Unix, Approve, Requested;
  }

  lemma ApprovedContent(keys: Keys, s: PendingSession, req: Request)
    requires req.ApproveSession?
    ensures var (approved, g) := (Approve(keys, s, req), DelegatedClaims(req));
      && approved.id == s.id && approved.status == "approved" && approved.token == Seal(keys, g)
      && approved.clientID == g.sub && approved.expiresAt == g.expiry * SECOND
      && SetOf(approved.scopes) == SetOf(g.scopes) == SetOf(Requested(req.scopes))
  {
    hide Seal, Unix, Clean, Requested;
    RequestedIsClean(req.scopes);
  }

  lemma SealIsTrimmed(keys: Keys, g: TokenClaims)
    requires Sound(keys)
    ensures TrimSpace(Seal(keys, g)) == Seal(keys, g)
  {
    var payload := keys.marshal(g);
    var signature := keys.sign(payload);
    assert keys.verify(payload, keys.sign(payload));
    assert keys.unmarshal(keys.marshal(g)) == Some(g);
    Base64.EncodedAlphabet(payload);
    Base64.EncodedAlphabet(signature);
    var (a, b) := (Base64.Encode(payload), Base64.Encode(signature));
    assert a[0] in a && b[|b| - 1] in b;
    TrimOfTrimmed(a + "." + b);
  }

  /** A sealed token carries just the claims sealed in it, whoever holds it, and is not forged. */
  lemma SealedIsSigned(keys: Keys, g: TokenClaims, minted: set<TokenClaims>)
    requires Sound(keys) && g in minted
    ensures forall c :: Signed(keys, Seal(keys, g), c) <==> c == g
    ensures Unforged(keys, Seal(keys, g), minted)
  {
    hide Seal, Carries;
    OpenOfSeal(keys, g);
    forall c ensures Signed(keys, Seal(keys, g), c) <==> c == g { OpenMeans(keys, Seal(keys, g), c); }
    SealCarries(keys, g);
  }

  lemma SealCarries(keys: Keys, g: TokenClaims)
    requires Sound(keys)
    ensures forall p, s :: Carries(Seal(keys, g), p, s) ==> p == keys.marshal(g)
    ensures keys.unmarshal(keys.marshal(g)) == Some(g)
  {
    var payload := keys.marshal(g);
    var signature := keys.sign(payload);
    var (x, y) := (Base64.Encode(payload), Base64.Encode(signature));
    Base64.EncodedAlphabet(payload);
    Base64.RoundTrip(payload);
    CutAfterDotless(x, y);
    forall p, s | Carries(Seal(keys, g), p, s) ensures p == payload {
      var a, b :| Seal(keys, g) == a + "." + b && '.' !in a && a != "" && b != ""
        && Base64.Decode(a) == Some(p) && Base64.Decode(b) == Some(s);
      CutAfterDotless(a, b);
    }
  }

  /** The sealed token of any grant works until its expiry second or its client's revocation, and not after either. */
  lemma GrantLifetime(keys: Keys, clock: int, run: seq<Event>, g: TokenClaims, t0: int, t1: int)
    requires Sound(keys) && LegalRun(keys, clock, run) && g in Replay(keys, clock, run).granted
    ensures var w := Replay(keys, clock, run);
      Answer(keys, w.cfg, Request.Authenticate(Seal(keys, g), t0, t1), Works).1.Authenticated?
      <==> t0 < g.expiry * SECOND && g.sub !in w.revoked
  {
    hide Answer, Replay, Seal, TrimSpace, Signed, Unforged;
    var w := Replay(keys, clock, run);
    RunsKeepInv(keys, clock, run);
    SealIsTrimmed(keys, g);
    SealedIsSigned(keys, g, w.minted);
    AuthenticateByGrants(keys, w, Seal(keys, g), t0, t1);
    if t0 < g.expiry * SECOND && g.sub !in w.revoked { assert Admissible(keys, w, Seal(keys, g), t0, g); }
  }

  /** History only grows, so a revoked client stays locked out for good. */
  lemma {:induction false} HistoryGrows(keys: Keys, clock: int, run: seq<Event>, more: seq<Event>)
    ensures var w, v := Replay(keys, clock, run), Replay(keys, clock, run + more);
      w.minted <= v.minted && w.granted <= v.granted && w.accepted <= v.accepted && w.revoked <= v.revoked
  {
    hide Step;
    if more == [] {
      assert run + more == run;
    } else {
      var n := |more| - 1;
      HistoryGrows(keys, clock, run, more[..n]);
      assert (run + more)[..|run + more| - 1] == run + more[..n];
      GrantsGrow(keys, Replay(keys, clock, run + more[..n]), more[n]);
    }
  }

  lemma RevocationIsForever(keys: Keys, clock: int, run: seq<Event>, more: seq<Event>, token: string, t0: int, t1: int,
                            claims: TokenClaims)
    requires LegalRun(keys, clock, run + more + [Event(Request.Authenticate(token, t0, t1), Works)])
    requires Signed(keys, TrimSpace(token), claims) && claims.sub in Replay(keys, clock, run).revoked
    ensures Answer(keys, Replay(keys, clock, run + more).cfg, Request.Authenticate(token, t0, t1), Works).1
         == Failed(Unauthorized)
  {
    hide Replay, Signed, TrimSpace, Answer;
    HistoryGrows(keys, clock, run, more);
    AuthenticateIsExact(keys, clock, run + more, token, t0, t1);
    AuthenticateAnswers(keys, Replay(keys, clock, run + more).cfg, token, t0, t1);
    forall c | Signed(keys, TrimSpace(token), c) ensures c == claims {
      OpenMeans(keys, TrimSpace(token), c);
      OpenMeans(keys, TrimSpace(token), claims);
    }
  }

  lemma AuthenticateAnswers(keys: Keys, cfg: Config, token: string, t0: int, t1: int)
    ensures var reply := Answer(keys, cfg, Request.Authenticate(token, t0, t1), Works).1;
      reply.Authenticated? || reply == Failed(Unauthorized)
  {
    hide Verify, TrimSpace;
  }

  // ---------------------------------------------------------------- sessions

  /**
   Every stored session is pending with nothing granted, or approved; an approved one carries a token sealed from
   one grant, with the same client, scopes and expiry, and that client is stored with that JTI.
  */
  lemma SessionsAreRecords(keys: Keys, clock: int, run: seq<Event>, s: PendingSession)
    requires LegalRun(keys, clock, run) && s in Replay(keys, clock, run).cfg.sessions
    ensures var w := Replay(keys, clock, run);
      || (s.status == "pending" && s.token == "" && s.clientID == "" && s.scopes == [])
      || (s.status == "approved" && exists g :: g in w.granted && Records(keys, s, g) && Stored(g, w.cfg.clients))
  {
    hide Replay, Records, Stored;
    RunsKeepInv(keys, clock, run);
    var w := Replay(keys, clock, run);
    assert SessionMatches(keys, s, w.granted);
    if s.status == "approved" {
      var g :| g in w.granted && Records(keys, s, g);
      assert Stored(g, w.cfg.clients);
    }
  }

  ghost predicate HasApproved(sessions: seq<PendingSession>, id: string) {
    exists s :: s in sessions && s.id == id && s.status == "approved"
  }

  lemma StepKeepsApproved(keys: Keys, w: World, ev: Event, id: string)
    requires HasApproved(w.cfg.sessions, id)
    ensures HasApproved(Step(keys, w, ev).cfg.sessions, id)
  {
    hide Step, Commits, Filter, Seal, Approvable;
    var sessions, after := w.cfg.sessions, Step(keys, w, ev).cfg.sessions;
    var s :| s in sessions && s.id == id && s.status == "approved";
    if !Commits(keys, w.cfg, ev) {
      QuietEffect(keys, w, ev);
    } else if ev.req.CreateSession? {
      CreateEffect(keys, w, ev);
      FilterMembers(sessions, SessionLive(ev.req.t2));
      assert SessionLive(ev.req.t2)(s);
      assert s in after;
    } else if ev.req.ApproveSession? {
      ApproveEffect(keys, w, ev);
      var live, i := Filter(sessions, SessionLive(ev.req.t0)), Approvable(w.cfg, ev.req);
      FilterMembers(sessions, SessionLive(ev.req.t0));
      assert SessionLive(ev.req.t0)(s);
      var k :| 0 <= k < |live| && live[k] == s;
      assert after[k].id == id && after[k].status == "approved";
      assert after[k] in after;
    } else {
      OtherSessionsEffect(keys, w, ev);
    }
  }

  /** An approved session never vanishes and never reverts to pending. */
  lemma {:induction false} ApprovalIsForever(keys: Keys, clock: int, run: seq<Event>, more: seq<Event>, id: string)
    requires HasApproved(Replay(keys, clock, run).cfg.sessions, id)
    ensures HasApproved(Replay(keys, clock, run + more).cfg.sessions, id)
  {
    hide HasApproved, Step;
    if more == [] {
      assert run + more == run;
    } else {
      var n := |more| - 1;
      ApprovalIsForever(keys, clock, run, more[..n], id);
      assert (run + more)[..|run + more| - 1] == run + more[..n];
      StepKeepsApproved(keys, Replay(keys, clock, run + more[..n]), more[n], id);
    }
  }

  // ---------------------------------------------------------------- scopes

  /** Delegation never widens: every token ever signed has scopes some earlier pairing code was issued with. */
  lemma ScopesNeverWiden(keys: Keys, clock: int, run: seq<Event>, m: TokenClaims)
    requires LegalRun(keys, clock, run) && m in Replay(keys, clock, run).minted
    ensures Covered(m.scopes, Replay(keys, clock, run).issued)
  {
    hide Replay, Covered;
    RunsKeepInv(keys, clock, run);
  }

  /** A stored client's scopes are those of the claims it was granted, as a set. */
  lemma {:induction false} ClientScopesAreClaimScopes(keys: Keys, clock: int, run: seq<Event>, c: Client)
    requires LegalRun(keys, clock, run) && c in Replay(keys, clock, run).cfg.clients
    ensures exists g :: (
        && g in Replay(keys, clock, run).granted
        && g.sub == c.id && g.jti == c.tokenJTI && SetOf(g.scopes) == SetOf(c.scopes))
  {
    hide Replay, SessionsMatch, CodesMatch, IDsMatch;
    RunsKeepInv(keys, clock, run);
    var w := Replay(keys, clock, run);
    assert Backed(c, w.granted, w.revoked);
  }

  // ---------------------------------------------------------------- pairing codes

  function Count(codes: seq<PendingPairCode>, code: string): nat {
    |Filter(codes, CodeIs(code))|
  }

  lemma CountByMultiset(a: seq<PendingPairCode>, b: seq<PendingPairCode>, code: string)
    requires multiset(a) == multiset(b)
    ensures Count(a, code) == Count(b, code)
  {
    FilterSizeByMultiset(a, b, CodeIs(code));
  }

  /** For every code string, even one drawn twice: issued = pending + redeemed + expired. */
  lemma CodesAreConserved(keys: Keys, clock: int, run: seq<Event>, code: string)
    requires LegalRun(keys, clock, run)
    ensures var w := Replay(keys, clock, run);
      && Count(w.issued, code) == Count(w.cfg.codes, code) + Count(w.redeemed, code) + Count(w.expired, code)
      && forall p :: p in w.expired ==> p.expiresAt <= w.clock
  {
    hide Replay;
    RunsKeepInv(keys, clock, run);
    var w := Replay(keys, clock, run);
    var parts := w.cfg.codes + w.redeemed + w.expired;
    assert multiset(w.issued) == multiset(parts);
    CountByMultiset(w.issued, parts, code);
    FilterConcat(w.cfg.codes + w.redeemed, w.expired, CodeIs(code));
    FilterConcat(w.cfg.codes, w.redeemed, CodeIs(code));
  }

  /** How many Pairs typed with `code` succeeded in the run and were saved. */
  function Pairings(keys: Keys, clock: int, run: seq<Event>, code: string): nat {
    if run == [] then 0
    else
      var n := |run| - 1;
      var ev := run[n];
      Pairings(keys, clock, run[..n], code)
      + if ev.req.Pair? && TypedCode(ev.req.code) == code
           && Answer(keys, Replay(keys, clock, run[..n]).cfg, ev.req, ev.io).1.Paired? then 1 else 0
  }

  lemma PairAnswers(keys: Keys, cfg: Config, ev: Event)
    requires ev.req.Pair?
    ensures Answer(keys, cfg, ev.req, ev.io).1.Paired? <==> Commits(keys, cfg, ev)
    ensures Redeemable(cfg, ev.req).Some? ==> Redeemable(cfg, ev.req).value.code == TypedCode(ev.req.code)
  {
    hide Seal, Clean, TrimSpace, Filter, TypedCode, Unix;
    var live := Filter(cfg.codes, CodeLive(ev.req.t0));
    var i := First(live, CodeIs(TypedCode(ev.req.code)));
    if i < |live| { assert CodeIs(TypedCode(ev.req.code))(live[i]); }
  }

  lemma PairedMeansRedeemed(keys: Keys, w: World, ev: Event, code: string)
    ensures Count(Step(keys, w, ev).redeemed, code)
         == Count(w.redeemed, code)
            + if ev.req.Pair? && TypedCode(ev.req.code) == code && Answer(keys, w.cfg, ev.req, ev.io).1.Paired?
              then 1 else 0
  {
    hide TypedCode, TrimSpace, Seal, Clean, Unix, Step, Answer, Commits, Redeemable, Minted, NewEntry, Dropped;
    var v := Step(keys, w, ev);
    if ev.req.Pair? { PairAnswers(keys, w.cfg, ev); }
    if !Commits(keys, w.cfg, ev) {
      QuietEffect(keys, w, ev);
    } else {
      CodesHistory(keys, w, ev);
      if ev.req.Pair? {
        PairEffect(keys, w, ev);
        var p := Redeemable(w.cfg, ev.req).value;
        assert CodeIs(code)(p) <==> p.code == code;
        assert v.redeemed == w.redeemed + [p];
        FilterSnoc(w.redeemed, p, CodeIs(code));
      } else {
        assert v.redeemed == w.redeemed;
      }
    }
  }

  lemma {:induction false} PairingsAreRedemptions(keys: Keys, clock: int, run: seq<Event>, code: string)
    ensures Pairings(keys, clock, run, code) == Count(Replay(keys, clock, run).redeemed, code)
  {
    hide Step, Answer, TypedCode, Count;
    if run == [] {
      assert Count([], code) == 0 by { NothingToCount(code); }
    } else {
      var n := |run| - 1;
      PairingsAreRedemptions(keys, clock, run[..n], code);
      PairedMeansRedeemed(keys, Replay(keys, clock, run[..n]), run[n], code);
    }
  }

  lemma NothingToCount(code: string)
    ensures Count([], code) == 0
  {
  }

  /** A code is never redeemed more often than it was issued. */
  lemma PairingsNeverExceedIssues(keys: Keys, clock: int, run: seq<Event>, code: string)
    requires LegalRun(keys, clock, run)
    ensures Pairings(keys, clock, run, code) <= Count(Replay(keys, clock, run).issued, code)
  {
    hide Replay, Count;
    PairingsAreRedemptions(keys, clock, run, code);
    CodesAreConserved(keys, clock, run, code);
  }

  /** `after` is `live` without its first entry for `code`. */
  ghost predicate TakesFirst(live: seq<PendingPairCode>, code: string, after: seq<PendingPairCode>) {
    exists i :: (
      && 0 <= i < |live| && live[i].code == code
      && (forall k :: 0 <= k < i ==> live[k].code != code)
      && after == live[..i] + live[i + 1..])
  }

  /** A Pair succeeds exactly when an unexpired entry has the typed code; it takes the first and no other. */
  lemma PairTakesFirstLiveMatch(keys: Keys, cfg: Config, req: Request)
    requires req.Pair? && Early(keys, req).None?
    ensures var (after, reply) := Answer(keys, cfg, req, Works);
      var live := Filter(cfg.codes, CodeLive(req.t0));
      && (reply.Paired? <==> exists p :: p in cfg.codes && p.expiresAt > req.t0 && p.code == TypedCode(req.code))
      && (reply.Paired? ==> TakesFirst(live, TypedCode(req.code), after.codes))
      && (!reply.Paired? ==> after == cfg && reply == Failed(InvalidCode))
  {
    hide Seal, Clean, TrimSpace, Filter, TypedCode, Unix;
    var live, wanted := Filter(cfg.codes, CodeLive(req.t0)), CodeIs(TypedCode(req.code));
    var i := First(live, wanted);
    FilterMembers(cfg.codes, CodeLive(req.t0));
    if i < |live| {
      assert wanted(live[i]) && live[i] in live && CodeLive(req.t0)(live[i]);
      forall k | 0 <= k < i ensures live[k].code != TypedCode(req.code) {
        assert !wanted(live[k]);
      }
      assert Answer(keys, cfg, req, Works).0.codes == live[..i] + live[i + 1..];
    } else {
      forall p | p in cfg.codes && p.expiresAt > req.t0 ensures p.code != TypedCode(req.code) {
        assert CodeLive(req.t0)(p);
        var k :| 0 <= k < |live| && live[k] == p;
        assert !wanted(live[k]);
      }
    }
  }
}
