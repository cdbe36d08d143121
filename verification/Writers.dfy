/**
 The three components that write the shared configuration file: the auth service, the webhook service and the watch
 callback.  Each operation is at most one store transaction under the store's mutex, so a concurrent execution is an
 interleaving of operations.
*/
module Writers {
  import opened Basics
  import opened Tokens
  import opened Store
  import Auth
  import AuthRuns
  import opened Webhooks
  import Text
  import Scopes

  datatype Writer = AuthWriter | HookWriter | WatchWriter

  datatype Operation =
    | AuthOp(ev: AuthRuns.Event)
    | HookOp(req: HookRequest, saved: bool)
    | SaveMark(rowID: int, saved: bool)

  datatype Result = AuthReply(auth: Auth.Reply) | HookResult(hook: HookReply) | MarkResult(saved: bool)

  function WriterOf(op: Operation): Writer {
    match op
    case AuthOp(_) => AuthWriter
    case HookOp(_, _) => HookWriter
    case SaveMark(_, _) => WatchWriter
  }

  function Apply(keys: Keys, cfg: Config, op: Operation): (Config, Result) {
    match op
    case AuthOp(ev) => var (after, reply) := Auth.Answer(keys, cfg, ev.req, ev.io); (after, AuthReply(reply))
    case HookOp(req, saved) => var (after, reply) := HookAnswer(cfg, req, saved); (after, HookResult(reply))
    case SaveMark(rowID, saved) => (if saved then cfg.(lastWatchRowID := rowID) else cfg, MarkResult(saved))
  }

  /** An operation here is the component's own: an auth request, a webhook request, or a watch mark saved or not. */
  lemma OperationsAreTheComponents(keys: Keys, cfg: Config, ev: AuthRuns.Event, req: HookRequest, rowID: int,
                                   saved: bool)
    ensures Apply(keys, cfg, AuthOp(ev)).0 == Auth.Answer(keys, cfg, ev.req, ev.io).0
    ensures Apply(keys, cfg, AuthOp(ev)).1 == AuthReply(Auth.Answer(keys, cfg, ev.req, ev.io).1)
    ensures Apply(keys, cfg, HookOp(req, saved)).0 == HookAnswer(cfg, req, saved).0
    ensures Apply(keys, cfg, HookOp(req, saved)).1 == HookResult(HookAnswer(cfg, req, saved).1)
    ensures Apply(keys, cfg, SaveMark(rowID, true)) == (cfg.(lastWatchRowID := rowID), MarkResult(true))
    ensures Apply(keys, cfg, SaveMark(rowID, false)) == (cfg, MarkResult(false))
  {
  }

  function Run(keys: Keys, cfg: Config, ops: seq<Operation>): (r: (Config, seq<Result>))
    ensures |r.1| == |ops|
  {
    if ops == [] then (cfg, [])
    else
      var (before, results) := Run(keys, cfg, ops[..|ops| - 1]);
      var (after, result) := Apply(keys, before, ops[|ops| - 1]);
      (after, results + [result])
  }

  /** The part of the configuration a writer owns, with the rest blanked out. */
  function Part(cfg: Config, who: Writer): Config {
    match who
    case AuthWriter => cfg.(webhooks := [], lastWatchRowID := 0)
    case HookWriter => EMPTY.(webhooks := cfg.webhooks)
    case WatchWriter => EMPTY.(lastWatchRowID := cfg.lastWatchRowID)
  }

  function IsBy(who: Writer): Operation -> bool {
    (op: Operation) => WriterOf(op) == who
  }

  /** The results of one writer's operations, in order. */
  function ResultsOf(ops: seq<Operation>, results: seq<Result>, who: Writer): seq<Result>
    requires |ops| == |results|
  {
    if ops == [] then []
    else
      var n := |ops| - 1;
      var rest := ResultsOf(ops[..n], results[..n], who);
      if WriterOf(ops[n]) == who then rest + [results[n]] else rest
  }

  /** The auth service neither reads nor writes the webhooks and the watch mark. */
  lemma AuthIsLocal(keys: Keys, cfg: Config, hooks: seq<Webhook>, mark: int, ev: AuthRuns.Event)
    ensures var (a, ra) := Auth.Answer(keys, cfg, ev.req, ev.io);
      var (b, rb) := Auth.Answer(keys, cfg.(webhooks := hooks, lastWatchRowID := mark), ev.req, ev.io);
      ra == rb && b == a.(webhooks := hooks, lastWatchRowID := mark)
  {
    hide Auth.Closure, Auth.Early;
    ClosureIsLocal(keys, cfg, hooks, mark, ev.req);
  }

  lemma ClosureIsLocal(keys: Keys, cfg: Config, hooks: seq<Webhook>, mark: int, req: Auth.Request)
    ensures var a := Auth.Closure(keys, cfg, req);
      var b := Auth.Closure(keys, cfg.(webhooks := hooks, lastWatchRowID := mark), req);
      if a.Err? then b == a
      else b == Ok((a.value.0.(webhooks := hooks, lastWatchRowID := mark), a.value.1))
  {
    hide Filter, First, Auth.TypedCode, Text.TrimSpace, Scopes.Clean, Seal, Verify, Unix, Auth.Requested, Auth.Approve,
      Auth.GeneratedCode, Auth.PairedClaims, Auth.SessionReply;
  }

  lemma OwnOperation(keys: Keys, c: Config, d: Config, op: Operation)
    requires Part(c, WriterOf(op)) == Part(d, WriterOf(op))
    ensures var (c', r), (d', s) := Apply(keys, c, op), Apply(keys, d, op);
      r == s && Part(c', WriterOf(op)) == Part(d', WriterOf(op))
  {
    if op.AuthOp? {
      AuthIsLocal(keys, c, [], 0, op.ev);
      AuthIsLocal(keys, d, [], 0, op.ev);
    }
  }

  lemma ForeignOperation(keys: Keys, c: Config, op: Operation, who: Writer)
    requires WriterOf(op) != who
    ensures Part(Apply(keys, c, op).0, who) == Part(c, who)
  {
    if op.AuthOp? {
      AuthIsLocal(keys, c, c.webhooks, c.lastWatchRowID, op.ev);
      assert c.(webhooks := c.webhooks, lastWatchRowID := c.lastWatchRowID) == c;
    }
  }

  /**
   However the writers interleave, each one's part of the configuration and each one's results are those of running
   its own operations alone, in the same order.
  */
  lemma {:induction false} WritersDoNotInterfere(keys: Keys, cfg: Config, ops: seq<Operation>, who: Writer)
    ensures var (mixed, results) := Run(keys, cfg, ops);
      var (alone, own) := Run(keys, cfg, Filter(ops, IsBy(who)));
      && Part(mixed, who) == Part(alone, who)
      && ResultsOf(ops, results, who) == own
  {
    hide Apply, Part;
    if ops != [] {
      var n := |ops| - 1;
      var front, op := ops[..n], ops[n];
      WritersDoNotInterfere(keys, cfg, front, who);
      var (before, results) := Run(keys, cfg, front);
      assert Run(keys, cfg, ops).1[..n] == results;
      if WriterOf(op) == who {
        var own := Filter(front, IsBy(who));
        assert (own + [op])[..|own|] == own;
        OwnOperation(keys, before, Run(keys, cfg, own).0, op);
      } else {
        ForeignOperation(keys, before, op, who);
      }
    }
  }
}
