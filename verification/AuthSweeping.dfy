/**
 Exactly when a caller can tell that the auth service prunes.  Creating or approving a session sweeps: it drops the
 sessions that have expired without being approved.  A swept session is "not found" where the service that never prunes
 says "expired", and nothing else can be told apart.
*/
module AuthSweeping {
  import opened Basics
  import opened Text
  import opened Scopes
  import opened Tokens
  import opened Store
  import opened Auth
  import opened AuthRuns
  import opened AuthPruning

  // ---------------------------------------------------------------- what has been swept

  /** The request commits and drops `s` if `s` is stored and was not approved. */
  predicate Sweeps(keys: Keys, cfg: Config, ev: Event, s: PendingSession) {
    Commits(keys, cfg, ev) &&
    match ev.req
    case CreateSession(_, _, _, _, _, _, t2) => s.expiresAt <= t2
    case ApproveSession(_, _, _, _, _, t0, _) => s.expiresAt <= t0
    case _ => false
  }

  /** A sweep has run at or after the session's expiry, while the reference held its id. */
  ghost predicate Swept(keys: Keys, clock: int, run: seq<Event>, s: PendingSession) {
    if run == [] then false
    else
      var front, ev := run[..|run| - 1], run[|run| - 1];
      || Swept(keys, clock, front, s)
      || (HasID(Keeping(keys, front).sessions, s.id) && Sweeps(keys, Replay(keys, clock, front).cfg, ev, s))
  }

  /** A session that is stored is in the reference; one in the reference that is not approved is stored until swept. */
  ghost predicate Account(stored: seq<PendingSession>, kept: seq<PendingSession>, s: PendingSession, swept: bool) {
    && (s in stored ==> s in kept)
    && (s in kept && s.status != "approved" ==> (s in stored <==> !swept))
    && (swept ==> HasID(kept, s.id))
  }

  // ---------------------------------------------------------------- one request

  lemma CreateAccounts(stored: seq<PendingSession>, kept: seq<PendingSession>, s: PendingSession, swept: bool,
                       x: PendingSession, now: int)
    requires Account(stored, kept, s, swept)
    requires forall t :: t in kept ==> t.id != x.id
    ensures Account(Filter(stored, SessionLive(now)) + [x], kept + [x], s,
                    swept || (HasID(kept, s.id) && s.expiresAt <= now))
  {
    FilterMembers(stored, SessionLive(now));
    var after := kept + [x];
    assert forall t :: t in kept ==> t in after;
  }

  lemma MemberAfterUpdate(s: seq<PendingSession>, i: nat, y: PendingSession, x: PendingSession)
    requires DistinctIDs(s) && i < |s| && y.id == s[i].id
    ensures x in s[i := y] <==> x == y || (x in s && x.id != y.id)
  {
    var after := s[i := y];
    if x in after && x != y {
      var k :| 0 <= k < |after| && after[k] == x;
      assert k != i && s[k] == x;
    }
    if x in s && x.id != y.id {
      var k :| 0 <= k < |s| && s[k] == x;
      assert after[k] == x;
    }
    assert after[i] == y;
  }

  lemma ApproveAccounts(stored: seq<PendingSession>, kept: seq<PendingSession>, s: PendingSession, swept: bool,
                        y: PendingSession, now: int, i: nat, j: nat)
    requires Account(stored, kept, s, swept) && DistinctIDs(stored) && DistinctIDs(kept) && y.status == "approved"
    requires var live := Filter(stored, SessionLive(now));
      i < |live| && j < |kept| && y.id == live[i].id == kept[j].id
    ensures Account(Filter(stored, SessionLive(now))[i := y], kept[j := y], s,
                    swept || (HasID(kept, s.id) && s.expiresAt <= now))
  {
    var live := Filter(stored, SessionLive(now));
    FilterMembers(stored, SessionLive(now));
    FilterDistinctIDs(stored, SessionLive(now));
    MemberAfterUpdate(live, i, y, s);
    MemberAfterUpdate(kept, j, y, s);
    if HasID(kept, s.id) {
      var t :| t in kept && t.id == s.id;
      MemberAfterUpdate(kept, j, y, t);
      MemberAfterUpdate(kept, j, y, y);
    }
    if s in kept && s.id == y.id {
      var k :| 0 <= k < |kept| && kept[k] == s;
      assert k == j;
    }
  }

  /** Requests that neither create nor approve leave the sessions alone, here and in the reference. */
  lemma OtherSessionsStay(keys: Keys, cfg: Config, req: Request)
    requires !req.CreateSession? && !req.ApproveSession?
    ensures Closure(keys, cfg, req).Ok? ==> Closure(keys, cfg, req).value.0.sessions == cfg.sessions
    ensures KeepingClosure(keys, cfg, req).Ok? ==> KeepingClosure(keys, cfg, req).value.0.sessions == cfg.sessions
  {
    hide Filter, First, TrimSpace, Verify, TypedCode, Seal, Clean, Unix;
  }

  lemma QuietSessions(keys: Keys, clock: int, cfg: Config, kept: Config, ev: Event)
    requires Agree(clock, cfg, kept) && OnTime(ev.req, clock) && Remembers(kept, cfg)
    requires ev.req.CreateSession? ==> forall s :: s in cfg.sessions || s in kept.sessions ==> s.id != ev.req.newID
    requires !Commits(keys, cfg, ev) || (!ev.req.CreateSession? && !ev.req.ApproveSession?)
    ensures Answer(keys, cfg, ev.req, ev.io).0.sessions == cfg.sessions
    ensures KeepingAnswer(keys, kept, ev.req, ev.io).0.sessions == kept.sessions
  {
    hide Agree, Closure, KeepingClosure, Early, Remembers, OnTime, Latest;
    ClosuresMatch(keys, clock, cfg, kept, ev.req);
    if !ev.req.CreateSession? && !ev.req.ApproveSession? {
      OtherSessionsStay(keys, cfg, ev.req);
      OtherSessionsStay(keys, kept, ev.req);
    }
  }

  lemma ApproveAnswers(keys: Keys, clock: int, cfg: Config, kept: Config, ev: Event)
    requires ev.req.ApproveSession? && Commits(keys, cfg, ev) && Agree(clock, cfg, kept) && OnTime(ev.req, clock)
    ensures var live, i := Filter(cfg.sessions, SessionLive(ev.req.t0)), Approvable(cfg, ev.req);
      var j := First(kept.sessions, SessionIDIs(TrimSpace(ev.req.sessionID)));
      && i < |live| && j < |kept.sessions| && live[i] == kept.sessions[j]
      && Answer(keys, cfg, ev.req, ev.io).0.sessions == live[i := Approve(keys, live[i], ev.req)]
      && KeepingAnswer(keys, kept, ev.req, ev.io).0.sessions == kept.sessions[j := Approve(keys, live[i], ev.req)]
  {
    hide TrimSpace, Filter, First, Approve, Requested, Clean, Early;
    AgreeLater(clock, ev.req.t0, cfg, kept);
    LookupThroughFilter(kept.sessions, ev.req.t0, TrimSpace(ev.req.sessionID));
  }

  lemma StepAccounts(keys: Keys, clock: int, cfg: Config, kept: Config, ev: Event, s: PendingSession, swept: bool)
    requires Agree(clock, cfg, kept) && OnTime(ev.req, clock) && Remembers(kept, cfg)
    requires ev.req.CreateSession? ==> forall t :: t in cfg.sessions || t in kept.sessions ==> t.id != ev.req.newID
    requires Account(cfg.sessions, kept.sessions, s, swept)
    ensures Account(Answer(keys, cfg, ev.req, ev.io).0.sessions, KeepingAnswer(keys, kept, ev.req, ev.io).0.sessions, s,
                    swept || (HasID(kept.sessions, s.id) && Sweeps(keys, cfg, ev, s)))
  {
    hide Answer, KeepingAnswer, Account, HasID, Filter, First, Agree, Remembers, Early, Closure, TrimSpace;
    if !Commits(keys, cfg, ev) || (!ev.req.CreateSession? && !ev.req.ApproveSession?) {
      QuietSessions(keys, clock, cfg, kept, ev);
    } else if ev.req.CreateSession? {
      CreateAnswers(keys, cfg, kept, ev.req);
      CreateAccounts(cfg.sessions, kept.sessions, s, swept, NewSession(ev.req), ev.req.t2);
    } else {
      ApproveAnswers(keys, clock, cfg, kept, ev);
      AgreeParts(clock, cfg, kept);
      var live, i := Filter(cfg.sessions, SessionLive(ev.req.t0)), Approvable(cfg, ev.req);
      var j := First(kept.sessions, SessionIDIs(TrimSpace(ev.req.sessionID)));
      ApproveAccounts(cfg.sessions, kept.sessions, s, swept, Approve(keys, live[i], ev.req), ev.req.t0, i, j);
    }
  }

  // ---------------------------------------------------------------- whole runs

  /** In every legal run, a session that is not approved is stored exactly when it is in the reference and not swept. */
  lemma {:induction false} RunsAccount(keys: Keys, clock: int, run: seq<Event>, s: PendingSession)
    requires LegalRun(keys, clock, run)
    ensures Account(Replay(keys, clock, run).cfg.sessions, Keeping(keys, run).sessions, s, Swept(keys, clock, run, s))
  {
    hide Legal, Inv, Agree, Answer, KeepingAnswer, HasID, Step, Sweeps, Remembers;
    if run != [] {
      hide Account;
      var n := |run| - 1;
      var front, ev := run[..n], run[n];
      assert forall i :: 0 <= i < n ==> front[..i] == run[..i];
      RunsAccount(keys, clock, front, s);
      RunsAgree(keys, clock, front);
      RunsKeepInv(keys, clock, front);
      var w, kept := Replay(keys, clock, front), Keeping(keys, front);
      LegalParts(keys, w, ev, kept);
      StepAccounts(keys, w.clock, w.cfg, kept, ev, s, Swept(keys, clock, front, s));
      StepParts(keys, w, ev);
    }
  }

  /** A session that the request asks for is in the reference, expired and never approved. */
  ghost predicate Lapsed(keys: Keys, run: seq<Event>, s: PendingSession, sessionID: string, now: int) {
    s in Keeping(keys, run).sessions && s.id == TrimSpace(sessionID) && s.status != "approved" && s.expiresAt <= now
  }

  /**
   The request reaches the store and asks for a lapsed session: GetSession for one that has been swept, ApproveSession,
   which sweeps before it looks, for any.
  */
  ghost predicate AsksForDropped(keys: Keys, clock: int, run: seq<Event>, ev: Event) {
    Early(keys, ev.req).None? && ev.io != CannotRead &&
    match ev.req
    case GetSession(sessionID, t0) => exists s :: Lapsed(keys, run, s, sessionID, t0) && Swept(keys, clock, run, s)
    case ApproveSession(sessionID, _, _, _, _, t0, _) => exists s :: Lapsed(keys, run, s, sessionID, t0)
    case _ => false
  }

  /** Lookup by id, in terms of membership. */
  lemma FirstByID(sessions: seq<PendingSession>, s: PendingSession)
    requires DistinctIDs(sessions) && s in sessions
    ensures var i := First(sessions, SessionIDIs(s.id)); i < |sessions| && sessions[i] == s
  {
    var m :| 0 <= m < |sessions| && sessions[m] == s;
    FirstIs(sessions, SessionIDIs(s.id), m);
  }

  lemma LiveIsStored(now: int, cfg: Config, kept: Config, s: PendingSession)
    requires Agree(now, cfg, kept) && s in kept.sessions && SessionLive(now)(s)
    ensures s in cfg.sessions
  {
    FilterMembers(kept.sessions, SessionLive(now));
    FilterMembers(cfg.sessions, SessionLive(now));
  }

  function Found(sessions: seq<PendingSession>, id: string, now: int): Reply {
    var i := First(sessions, SessionIDIs(id));
    if i == |sessions| then Failed(SessionNotFound)
    else if sessions[i].expiresAt <= now then Failed(SessionExpired)
    else SessionReply(sessions[i])
  }

  lemma GetAnswer(keys: Keys, cfg: Config, ev: Event)
    requires ev.req.GetSession? && ev.io != CannotRead
    ensures Answer(keys, cfg, ev.req, ev.io).1 == Found(cfg.sessions, TrimSpace(ev.req.sessionID), ev.req.t0)
    ensures KeepingAnswer(keys, cfg, ev.req, ev.io).1 == Found(cfg.sessions, TrimSpace(ev.req.sessionID), ev.req.t0)
  {
    hide TrimSpace, First, SessionReply;
  }

  lemma {:induction false} GetShowsSweeps(keys: Keys, clock: int, run: seq<Event>, ev: Event)
    requires LegalRun(keys, clock, run) && ev.req.GetSession? && ev.io != CannotRead
    requires Replay(keys, clock, run).clock <= ev.req.t0
    ensures Answer(keys, Replay(keys, clock, run).cfg, ev.req, ev.io).1
         != KeepingAnswer(keys, Keeping(keys, run), ev.req, ev.io).1
       <==> AsksForDropped(keys, clock, run, ev)
  {
    hide LegalRun, Replay, Keeping, Answer, KeepingAnswer, Swept, First, TrimSpace, Remembers, HasID;
    var w, kept := Replay(keys, clock, run), Keeping(keys, run);
    var stored, id, now := w.cfg.sessions, TrimSpace(ev.req.sessionID), ev.req.t0;
    RunsAgree(keys, clock, run);
    AgreeLater(w.clock, now, w.cfg, kept);
    GetAnswer(keys, w.cfg, ev);
    GetAnswer(keys, kept, ev);
    var i, j := First(stored, SessionIDIs(id)), First(kept.sessions, SessionIDIs(id));
    if i < |stored| {
      assert SessionIDIs(id)(stored[i]);
      RunsAccount(keys, clock, run, stored[i]);
      FirstByID(kept.sessions, stored[i]);
    } else if j < |kept.sessions| {
      assert SessionIDIs(id)(kept.sessions[j]);
      NewlyDropped(keys, clock, run, kept.sessions[j], now);
      assert Lapsed(keys, run, kept.sessions[j], ev.req.sessionID, now);
    }
    forall s | Lapsed(keys, run, s, ev.req.sessionID, now)
      ensures j < |kept.sessions| && kept.sessions[j] == s && (s in stored <==> !Swept(keys, clock, run, s))
    {
      FirstByID(kept.sessions, s);
      RunsAccount(keys, clock, run, s);
    }
  }

  /** What is in the reference and no longer stored has expired, was not approved, and was swept. */
  lemma NewlyDropped(keys: Keys, clock: int, run: seq<Event>, s: PendingSession, now: int)
    requires LegalRun(keys, clock, run) && Replay(keys, clock, run).clock <= now
    requires s in Keeping(keys, run).sessions
    requires First(Replay(keys, clock, run).cfg.sessions, SessionIDIs(s.id)) == |Replay(keys, clock, run).cfg.sessions|
    ensures s.status != "approved" && s.expiresAt <= now && Swept(keys, clock, run, s)
  {
    hide LegalRun, Replay, Keeping, Swept, First, HasID, Remembers;
    var w, kept := Replay(keys, clock, run), Keeping(keys, run);
    RunsAgree(keys, clock, run);
    RunsAccount(keys, clock, run, s);
    AgreeLater(w.clock, now, w.cfg, kept);
    if s in w.cfg.sessions { FirstByID(w.cfg.sessions, s); }
    if SessionLive(now)(s) { LiveIsStored(now, w.cfg, kept, s); }
  }

  /** Approving looks only at live sessions, so the reference's sessions decide both answers. */
  lemma ApproveAnswer(keys: Keys, clock: int, cfg: Config, kept: Config, ev: Event)
    requires ev.req.ApproveSession? && Early(keys, ev.req).None? && ev.io != CannotRead
    requires Agree(clock, cfg, kept) && OnTime(ev.req, clock)
    ensures var j := First(kept.sessions, SessionIDIs(TrimSpace(ev.req.sessionID)));
      Answer(keys, cfg, ev.req, ev.io).1 != KeepingAnswer(keys, kept, ev.req, ev.io).1
      <==> j < |kept.sessions| && !SessionLive(ev.req.t0)(kept.sessions[j])
  {
    hide TrimSpace, Filter, First, Approve, Requested, Clean, Early;
    AgreeLater(clock, ev.req.t0, cfg, kept);
    LookupThroughFilter(kept.sessions, ev.req.t0, TrimSpace(ev.req.sessionID));
  }

  lemma {:induction false} ApproveShowsLapsed(keys: Keys, clock: int, run: seq<Event>, ev: Event)
    requires LegalRun(keys, clock, run) && ev.req.ApproveSession? && Early(keys, ev.req).None? && ev.io != CannotRead
    requires OnTime(ev.req, Replay(keys, clock, run).clock)
    ensures Answer(keys, Replay(keys, clock, run).cfg, ev.req, ev.io).1
         != KeepingAnswer(keys, Keeping(keys, run), ev.req, ev.io).1
       <==> AsksForDropped(keys, clock, run, ev)
  {
    hide LegalRun, Replay, Keeping, Answer, KeepingAnswer, Early, First, TrimSpace, Remembers;
    var w, kept := Replay(keys, clock, run), Keeping(keys, run);
    var id := TrimSpace(ev.req.sessionID);
    RunsAgree(keys, clock, run);
    ApproveAnswer(keys, w.clock, w.cfg, kept, ev);
    var j := First(kept.sessions, SessionIDIs(id));
    if j < |kept.sessions| && !SessionLive(ev.req.t0)(kept.sessions[j]) {
      assert SessionIDIs(id)(kept.sessions[j]);
      assert Lapsed(keys, run, kept.sessions[j], ev.req.sessionID, ev.req.t0);
    }
    forall s | Lapsed(keys, run, s, ev.req.sessionID, ev.req.t0)
      ensures j < |kept.sessions| && kept.sessions[j] == s && !SessionLive(ev.req.t0)(s)
    {
      FirstByID(kept.sessions, s);
    }
  }

  lemma UnservedAlike(keys: Keys, cfg: Config, kept: Config, ev: Event)
    requires Early(keys, ev.req).Some? || ev.io == CannotRead
    ensures Answer(keys, cfg, ev.req, ev.io).1 == KeepingAnswer(keys, kept, ev.req, ev.io).1
  {
    hide Early, Closure, KeepingClosure;
  }

  /**
   At every event of every legal run, the service's answer differs from that of the service that never prunes if and
   only if the request asks for a dropped session.
  */
  lemma PruningShowsExactly(keys: Keys, clock: int, run: seq<Event>, i: nat)
    requires LegalRun(keys, clock, run) && i < |run|
    ensures Answer(keys, Replay(keys, clock, run[..i]).cfg, run[i].req, run[i].io).1
         != KeepingAnswer(keys, Keeping(keys, run[..i]), run[i].req, run[i].io).1
       <==> AsksForDropped(keys, clock, run[..i], run[i])
  {
    hide Legal, Inv, Agree, Answer, KeepingAnswer, Replay, Keeping, Early, Lapsed, Swept;
    var front, ev := run[..i], run[i];
    assert forall k :: 0 <= k < i ==> front[..k] == run[..k];
    assert LegalRun(keys, clock, front);
    RunsAgree(keys, clock, front);
    RunsKeepInv(keys, clock, front);
    var w, kept := Replay(keys, clock, front), Keeping(keys, front);
    LegalParts(keys, w, ev, kept);
    if Early(keys, ev.req).Some? || ev.io == CannotRead {
      UnservedAlike(keys, w.cfg, kept, ev);
    } else if ev.req.GetSession? {
      GetShowsSweeps(keys, clock, front, ev);
    } else if ev.req.ApproveSession? {
      ApproveShowsLapsed(keys, clock, front, ev);
    } else {
      OnlySessionErrorsDiffer(keys, clock, run, i);
    }
  }
}
