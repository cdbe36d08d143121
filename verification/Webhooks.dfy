/** Registering and deleting webhooks: `Create` and `Delete` of internal/webhook/service.go. */
module Webhooks {
  import opened Basics
  import opened Text
  import opened Scopes
  import opened Store
  import opened Sorting

  /** `target` is what URL validation made of the raw URL, or None when it rejected it. */
  datatype HookRequest =
    | CreateHook(target: Option<string>, events: seq<string>, newID: string, now: int)
    | DeleteHook(id: string)

  datatype HookReply = Created(hook: Webhook) | Deleted(found: bool) | InvalidTarget | NoEvents | HookStoreFailed

  function HookIDIsNot(id: string): Webhook -> bool {
    (h: Webhook) => h.id != id
  }

  function EarlyHook(req: HookRequest): Option<HookReply> {
    match req
    case CreateHook(target, events, _, _) =>
      if target.None? then Some(InvalidTarget) else if Collect(events) == [] then Some(NoEvents) else None
    case DeleteHook(id) => if TrimSpace(id) == "" then Some(Deleted(false)) else None
  }

  function NewHook(req: HookRequest): Webhook
    requires req.CreateHook? && req.target.Some?
  {
    Webhook(req.newID, req.target.value, Collect(req.events), req.now)
  }

  /** A webhook request against a stored configuration; `saved` is false when the store cannot be read or saved. */
  function HookAnswer(cfg: Config, req: HookRequest, saved: bool): (Config, HookReply) {
    match EarlyHook(req)
    case Some(reply) => (cfg, reply)
    case None =>
      if !saved then (cfg, HookStoreFailed)
      else if req.CreateHook? then (cfg.(webhooks := cfg.webhooks + [NewHook(req)]), Created(NewHook(req)))
      else
        var kept := Filter(cfg.webhooks, HookIDIsNot(TrimSpace(req.id)));
        (cfg.(webhooks := kept), Deleted(kept != cfg.webhooks))
  }

  /** The events of a hook: trimmed, without blanks and repetitions, in order of first mention. */
  method CleanEvents(events: seq<string>) returns (out: seq<string>)
    ensures out == Collect(events)
  {
    out := [];
    var i := 0;
    while i < |events|
      invariant 0 <= i <= |events|
      invariant out == Collect(events[..i])
    {
      assert events[..i + 1][..i] == events[..i];
      var event := TrimSpace(events[i]);
      i := i + 1;
      if event == "" || event in out {
        continue;
      }
      out := out + [event];
    }
    assert events[..i] == events;
  }

  lemma FilterChanges<T>(s: seq<T>, p: T -> bool)
    ensures Filter(s, p) == s <==> forall i :: 0 <= i < |s| ==> p(s[i])
  {
    FilterMembers(s, p);
    if forall i :: 0 <= i < |s| ==> p(s[i]) {
      FilterAll(s, p);
    } else if Filter(s, p) == s {
      forall i | 0 <= i < |s| ensures p(s[i]) {
        assert s[i] in Filter(s, p);
      }
    }
  }

  lemma {:induction false} FilterFull<T>(s: seq<T>, p: T -> bool)
    requires |Filter(s, p)| == |s|
    ensures Filter(s, p) == s
  {
    if s != [] {
      var front := s[..|s| - 1];
      FilterFull(front, p);
      assert s == front + [s[|s| - 1]];
    }
  }

  /** A deletion answers true exactly when a hook has the id; afterwards none has, and every other hook is kept. */
  lemma DeleteRemovesExactly(cfg: Config, id: string)
    requires TrimSpace(id) != ""
    ensures var (after, reply) := HookAnswer(cfg, DeleteHook(id), true);
      && (reply == Deleted(true) <==> exists h :: h in cfg.webhooks && h.id == TrimSpace(id))
      && (forall h :: h in after.webhooks <==> h in cfg.webhooks && h.id != TrimSpace(id))
  {
    var keep := HookIDIsNot(TrimSpace(id));
    FilterMembers(cfg.webhooks, keep);
    FilterChanges(cfg.webhooks, keep);
    if h :| h in cfg.webhooks && h.id == TrimSpace(id) {
      var i :| 0 <= i < |cfg.webhooks| && cfg.webhooks[i] == h;
      assert !keep(cfg.webhooks[i]);
    }
  }

  /**
   What a creation does: an invalid target or a list of nothing but blanks is refused; otherwise one hook is added
   behind the others, with the mentioned events once each, in order of first mention.
  */
  lemma CreateAddsOne(cfg: Config, target: Option<string>, events: seq<string>, newID: string, now: int)
    ensures var (after, reply) := HookAnswer(cfg, CreateHook(target, events, newID, now), true);
      if target.None? then after == cfg && reply == InvalidTarget
      else if forall x :: !Mentions(events, x) then after == cfg && reply == NoEvents
      else
        && reply.Created? && reply.hook.id == newID && reply.hook.url == target.value && reply.hook.createdAt == now
        && after == cfg.(webhooks := cfg.webhooks + [reply.hook])
        && Distinct(reply.hook.events) && (forall x :: x in reply.hook.events <==> Mentions(events, x))
        && forall x, y :: Ahead(reply.hook.events, x, y) ==> exists i :: MentionedFirst(events, x, y, i)
  {
    hide Collect, Mentions, MentionedFirst, Ahead, Distinct;
    CollectMeaning(events);
    if Collect(events) != [] { assert Collect(events)[0] in Collect(events); }
    forall x, y | Ahead(Collect(events), x, y) ensures exists i :: MentionedFirst(events, x, y, i) {
      CollectOrder(events, x, y);
    }
  }

  /** What a deletion does besides: a blank id deletes nothing, and nothing but the hooks changes. */
  lemma DeleteTouchesHooksOnly(cfg: Config, id: string)
    ensures var (after, reply) := HookAnswer(cfg, DeleteHook(id), true);
      && after.(webhooks := cfg.webhooks) == cfg
      && (Blank(id) ==> after == cfg && reply == Deleted(false))
      && (!Blank(id) ==>
            && after.webhooks == Filter(cfg.webhooks, (h: Webhook) => h.id != TrimSpace(id))
            && reply == Deleted(exists h :: h in cfg.webhooks && h.id == TrimSpace(id)))
  {
    hide Filter, Blank, TrimSpace;
    BlankTrims(id);
    FilterSame(cfg.webhooks, HookIDIsNot(TrimSpace(id)), (h: Webhook) => h.id != TrimSpace(id));
    if TrimSpace(id) != "" { DeleteRemovesExactly(cfg, id); }
  }

  /** What cannot be read or saved changes nothing, and only what needs the store fails for it. */
  lemma HookTroubleStoresNothing(cfg: Config, req: HookRequest)
    ensures var (after, reply) := HookAnswer(cfg, req, false);
      && after == cfg
      && reply ==
           match req
           case CreateHook(target, events, _, _) =>
             if target.None? then InvalidTarget
             else if forall x :: !Mentions(events, x) then NoEvents else HookStoreFailed
           case DeleteHook(id) => if Blank(id) then Deleted(false) else HookStoreFailed
  {
    hide Collect, Mentions, Blank, TrimSpace;
    match req
    case CreateHook(_, events, _, _) =>
      CollectMeaning(events);
      if Collect(events) != [] { assert Collect(events)[0] in Collect(events); }
    case DeleteHook(id) => BlankTrims(id);
  }

  ghost predicate HookOutcome(before: Disk, after: Disk, req: HookRequest, readable: bool, done: nat,
                              reply: HookReply)
  {
    match Load(before, readable)
    case Err(_) => after == before && reply == HookAnswer(EMPTY, req, false).1
    case Ok(cfg) =>
      var (next, expected) := HookAnswer(cfg, req, done == |SAVE_STEPS|);
      reply == expected && Load(after, true) == Ok(next)
  }

  /** The loop of `Delete`: hooks with another id slide to the front of the slice, in place. */
  method DropHook(hooks: seq<Webhook>, wanted: string) returns (kept: seq<Webhook>, deleted: bool)
    ensures kept == Filter(hooks, HookIDIsNot(wanted))
    ensures deleted <==> kept != hooks
  {
    hide Filter;
    assert Filter(hooks[..0], HookIDIsNot(wanted)) == [] by { FilterNothing(HookIDIsNot(wanted)); }
    var slots := new Webhook[|hooks|](i requires 0 <= i < |hooks| => hooks[i]);
    assert slots[..] == hooks;
    var n := 0;
    deleted := false;
    var i := 0;
    while i < slots.Length
      invariant 0 <= n <= i <= slots.Length == |hooks|
      invariant slots[i..] == hooks[i..]
      invariant slots[..n] == Filter(hooks[..i], HookIDIsNot(wanted))
      invariant deleted <==> n < i
    {
      var hook := slots[i];
      assert hook == slots[i..][0] == hooks[i];
      assert hooks[..i + 1] == hooks[..i] + [hook];
      FilterSnoc(hooks[..i], hook, HookIDIsNot(wanted));
      ghost var rest := slots[i + 1..];
      assert rest == slots[i..][1..];
      if hook.id == wanted {
        deleted := true;
      } else {
        ghost var before := slots[..n];
        slots[n] := hook;
        n := n + 1;
        assert slots[..n] == before + [hook];
      }
      assert slots[i + 1..] == rest;
      i := i + 1;
    }
    assert hooks[..i] == hooks;
    if n == i { FilterFull(hooks, HookIDIsNot(wanted)); }
    kept := slots[..n];
  }

  class Service {
    const store: FileStore

    constructor (store: FileStore)
      ensures this.store == store
    {
      this.store := store;
    }

    method Create(target: Option<string>, events: seq<string>, newID: string, now: int, readable: bool, done: nat)
      returns (reply: HookReply)
      requires done <= |SAVE_STEPS|
      modifies store
      ensures HookOutcome(old(store.disk), store.disk, CreateHook(target, events, newID, now), readable, done, reply)
    {
      hide Collect, Saving;
      if target.None? {
        return InvalidTarget;
      }
      var cleaned := CleanEvents(events);
      if |cleaned| == 0 {
        return NoEvents;
      }
      var hook := Webhook(newID, target.value, cleaned, now);
      var append: Config -> Result<Config, ()> := (cfg: Config) => Ok(cfg.(webhooks := cfg.webhooks + [hook]));
      var updated := store.Update(append, readable, done);
      if updated.Err? {
        return HookStoreFailed;
      }
      return Created(hook);
    }

    method Delete(id: string, readable: bool, done: nat) returns (reply: HookReply)
      requires done <= |SAVE_STEPS|
      modifies store
      ensures HookOutcome(old(store.disk), store.disk, DeleteHook(id), readable, done, reply)
    {
      hide TrimSpace, Saving, Filter;
      var wanted := TrimSpace(id);
      if wanted == "" {
        return Deleted(false);
      }
      var loaded := store.LoadLocked(readable);
      if loaded.Err? {
        return HookStoreFailed;
      }
      var cfg := loaded.value;
      var kept, deleted := DropHook(cfg.webhooks, wanted);
      var saved := store.SaveLocked(cfg.(webhooks := kept), done);
      if !saved {
        return HookStoreFailed;
      }
      return Deleted(deleted);
    }
  }
}
