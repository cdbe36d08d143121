/**
 The history cache as an object holding slices, and why callers cannot disturb it: `cloneMessages` gives the cache its
 own arrays on the way in and callers their own on the way out.  A slice is an array; a slice without elements has
 nothing to write through, so only arrays with elements count as memory that could be shared.
*/
module HistoryObject {
  import opened Basics
  import opened HistoryCache

  /** What a `*time.Time` points to. */
  class Stamp {
    var at: int

    constructor (at: int)
      ensures this.at == at
    {
      this.at := at;
    }
  }

  datatype Attachment = Attachment(id: string, filename: string, mimeType: string, sizeBytes: int, path: string)

  datatype Reaction = Reaction(id: int, sender: string, kind: string, emoji: string, isFromMe: bool, createdAt: Stamp?)

  datatype Message = Message(
    id: int, chatID: int, guid: string, sender: string, text: string, isFromMe: bool, createdAt: Stamp?,
    attachments: array<Attachment>, reactions: array<Reaction>, replyToGUID: string, destinationCallerID: string)

  /** A message's content at one moment; a timestamp counts as the pointer that it is. */
  datatype Snapshot = Snapshot(
    id: int, chatID: int, guid: string, sender: string, text: string, isFromMe: bool, createdAt: Stamp?,
    attachments: seq<Attachment>, reactions: seq<Reaction>, replyToGUID: string, destinationCallerID: string)

  ghost function Memory<T>(a: array<T>): set<object> {
    if a.Length == 0 then {} else {a}
  }

  ghost function Content<T>(a: array<T>): seq<T>
    reads Memory(a)
  {
    if a.Length == 0 then [] else a[..]
  }

  ghost function MessageMemory(m: Message): set<object> {
    Memory(m.attachments) + Memory(m.reactions)
  }

  ghost function Snap(m: Message): Snapshot
    reads MessageMemory(m)
  {
    Snapshot(m.id, m.chatID, m.guid, m.sender, m.text, m.isFromMe, m.createdAt,
             Content(m.attachments), Content(m.reactions), m.replyToGUID, m.destinationCallerID)
  }

  /** All the memory of a history lies within `region`. */
  ghost predicate Within(ms: array<Message>, region: set<object>)
    reads region
  {
    ms.Length > 0 ==> ms in region && forall i :: 0 <= i < ms.Length ==> MessageMemory(ms[i]) <= region
  }

  ghost function SnapAll(ms: array<Message>, region: set<object>): (r: seq<Snapshot>)
    requires Within(ms, region)
    reads region
    ensures |r| == ms.Length
    ensures ms.Length > 0 ==> forall i :: 0 <= i < ms.Length ==> r[i] == Snap(ms[i])
  {
    if ms.Length == 0 then []
    else seq(ms.Length, i requires 0 <= i < ms.Length && Within(ms, region) reads region => Snap(ms[i]))
  }

  lemma WiderRegion(ms: array<Message>, region: set<object>, wider: set<object>)
    requires Within(ms, region) && region <= wider
    ensures Within(ms, wider) && SnapAll(ms, wider) == SnapAll(ms, region)
  {
    var a, b := SnapAll(ms, wider), SnapAll(ms, region);
    assert ms.Length > 0 ==> forall i :: 0 <= i < ms.Length ==> a[i] == b[i];
  }

  /** Copies a slice with elements; one without is passed on as it is. */
  method CopySlice<T>(a: array<T>) returns (c: array<T>)
    ensures Content(c) == Content(a) && fresh(Memory(c))
  {
    if a.Length == 0 {
      return a;
    }
    c := new T[a.Length](i requires 0 <= i < a.Length reads a => a[i]);
    assert c[..] == a[..];
  }

  lemma CopiedMessage(m: Message, c: Message)
    requires c == m.(attachments := c.attachments, reactions := c.reactions)
    requires Content(c.attachments) == Content(m.attachments) && Content(c.reactions) == Content(m.reactions)
    ensures Snap(c) == Snap(m) && MessageMemory(c) == Memory(c.attachments) + Memory(c.reactions)
  {
  }

  /** Copies the history, its attachments and its reactions; the copy's memory is all new. */
  method CloneMessages(ms: array<Message>, ghost region: set<object>)
    returns (cloned: array<Message>, ghost own: set<object>)
    requires Within(ms, region)
    ensures fresh(own) && Within(cloned, own)
    ensures SnapAll(cloned, own) == SnapAll(ms, region)
  {
    hide Snap, MessageMemory;
    own := {};
    if ms.Length == 0 {
      return ms, own;
    }
    cloned := new Message[ms.Length](i requires 0 <= i < ms.Length reads ms => ms[i]);
    own := {cloned};
    var index := 0;
    while index < ms.Length
      invariant 0 <= index <= ms.Length == cloned.Length
      invariant fresh(own) && cloned in own
      invariant forall i :: 0 <= i < index ==>
        MessageMemory(cloned[i]) <= own - {cloned} && Snap(cloned[i]) == Snap(ms[i])
      modifies cloned
    {
      var message := ms[index];
      var attachments := CopySlice(message.attachments);
      var reactions := CopySlice(message.reactions);
      var copyMessage := message.(attachments := attachments, reactions := reactions);
      CopiedMessage(message, copyMessage);
      own := own + Memory(attachments) + Memory(reactions);
      cloned[index] := copyMessage;
      index := index + 1;
    }
  }

  class Cache {
    const ttl: int
    var entries: map<Key, Entry<array<Message>>>
    ghost var region: set<object>

    ghost predicate Valid()
      reads this, region
    {
      this !in region && forall k :: k in entries ==> Within(entries[k].messages, region)
    }

    /** The table with every history replaced by its content. */
    ghost function View(): map<Key, Entry<seq<Snapshot>>>
      requires Valid()
      reads this, region
    {
      map k | k in entries :: Entry(entries[k].chatID, entries[k].expiresAt, SnapAll(entries[k].messages, region))
    }

    constructor (ttl: int)
      ensures Valid() && View() == map[] && region == {}
      ensures this.ttl == if ttl <= 0 then 30 * 60 * 1_000_000_000 else ttl
    {
      this.ttl := if ttl <= 0 then 30 * 60 * 1_000_000_000 else ttl;
      entries, region := map[], {};
    }

    method Get(key: Key, now: int) returns (ms: array?<Message>, ghost own: set<object>)
      requires Valid()
      modifies this
      ensures Valid() && region == old(region)
      ensures View() == After(old(View()), CallGet(key, now), ttl)
      ensures fresh(own)
      ensures ms == null <==> Answer(old(View()), key, now).None?
      ensures ms != null ==> Within(ms, own) && Some(SnapAll(ms, own)) == Answer(old(View()), key, now)
    {
      own := {};
      if key !in entries {
        return null, own;
      }
      var entry := entries[key];
      if now > entry.expiresAt {
        entries := entries - {key};
        return null, own;
      }
      ms, own := CloneMessages(entry.messages, region);
    }

    method Put(key: Key, messages: array<Message>, now: int, ghost theirs: set<object>)
      requires Valid() && Within(messages, theirs)
      modifies this
      ensures Valid() && fresh(region - old(region))
      ensures View() == Store(old(View()), key, old(SnapAll(messages, theirs)), now, ttl)
    {
      hide SnapAll, Snap, MessageMemory;
      ghost var content, view := SnapAll(messages, theirs), View();
      var copy, own := CloneMessages(messages, theirs);
      assert View() == view;
      GrowRegion(own);
      entries := entries[key := Entry(key.chatID, now + ttl, copy)];
      assert SnapAll(copy, region) == SnapAll(copy, own) by { WiderRegion(copy, own, region); }
    }

    ghost method GrowRegion(more: set<object>)
      requires Valid() && this !in more
      modifies this`region
      ensures Valid() && region == old(region) + more && View() == old(View())
    {
      region := region + more;
      forall k | k in entries
        ensures Within(entries[k].messages, region)
        ensures SnapAll(entries[k].messages, region) == old(SnapAll(entries[k].messages, region))
      {
        assert Within(entries[k].messages, old(region));
        assert SnapAll(entries[k].messages, region) == SnapAll(entries[k].messages, old(region));
      }
    }

    /** Deletes the chat's entries one by one, in whatever order the map yields them. */
    method InvalidateChat(chatID: int)
      requires Valid()
      modifies this
      ensures Valid() && region == old(region)
      ensures View() == DropChat(old(View()), chatID)
    {
      ghost var all := entries;
      var rest := entries.Keys;
      while rest != {}
        invariant rest <= all.Keys && region == old(region)
        invariant entries == map k | k in all && (k in rest || all[k].chatID != chatID) :: all[k]
      {
        var key :| key in rest;
        if entries[key].chatID == chatID {
          entries := entries - {key};
        }
        rest := rest - {key};
      }
    }
  }

  // ---------------------------------------------------------------- callers that write to what they hold

  /** What callers do: put a history they hold, ask for one to keep, invalidate a chat, write to what they hold. */
  datatype Action = PutHeld(slot: nat, key: Key, now: int) | Ask(key: Key, now: int) | Forget(chatID: int) | Scribble

  /** What the histories that callers hold contain at one moment. */
  type Views = seq<seq<Snapshot>>

  /** The call an action makes, if it makes one, by callers whose histories contain `seen`. */
  function CallOf(action: Action, seen: Views): Option<Call<seq<Snapshot>>> {
    match action
    case PutHeld(slot, key, now) => Some(CallPut(key, if slot < |seen| then seen[slot] else [], now))
    case Ask(key, now) => Some(CallGet(key, now))
    case Forget(chatID) => Some(CallInvalidate(chatID))
    case Scribble => None
  }

  /** Only writing by callers changes what they hold; a hit adds to it. */
  ghost predicate Follows(action: Action, seen: Views, reply: Option<seq<Snapshot>>, after: Views) {
    if action.Scribble? then |after| == |seen|
    else after == if reply.Some? then seen + [reply.value] else seen
  }

  function CallsOf(actions: seq<Action>, seen: seq<Views>): seq<Call<seq<Snapshot>>>
    requires |actions| == |seen|
  {
    if actions == [] then []
    else
      var n := |actions| - 1;
      var before := CallsOf(actions[..n], seen[..n]);
      match CallOf(actions[n], seen[n])
      case None => before
      case Some(call) => before + [call]
  }

  function Acted(entries: map<Key, Entry<seq<Snapshot>>>, action: Action, seen: Views, ttl: int)
    : map<Key, Entry<seq<Snapshot>>>
  {
    match CallOf(action, seen)
    case None => entries
    case Some(call) => After(entries, call, ttl)
  }

  function ReplyTo(entries: map<Key, Entry<seq<Snapshot>>>, action: Action): Option<seq<Snapshot>> {
    if action.Ask? then Answer(entries, action.key, action.now) else None
  }

  lemma CallsSnoc(actions: seq<Action>, seen: seq<Views>, i: nat, ttl: int)
    requires i < |actions| && i < |seen|
    ensures AfterAll(CallsOf(actions[..i + 1], seen[..i + 1]), ttl)
         == Acted(AfterAll(CallsOf(actions[..i], seen[..i]), ttl), actions[i], seen[i], ttl)
  {
    hide After;
    var before := CallsOf(actions[..i], seen[..i]);
    assert actions[..i + 1][..i] == actions[..i] && seen[..i + 1][..i] == seen[..i];
    if CallOf(actions[i], seen[i]).Some? {
      assert (before + [CallOf(actions[i], seen[i]).value])[..|before|] == before;
    }
  }

  /**
   So far every answer was that of the calls alone, with each history as it was when it was put, no call changed what
   callers held, and `entries` is what the calls alone leave.
  */
  ghost predicate Undisturbed(ttl: int, actions: seq<Action>, seen: seq<Views>, replies: seq<Option<seq<Snapshot>>>,
                              entries: map<Key, Entry<seq<Snapshot>>>)
  {
    && |replies| <= |actions| && |seen| == |replies| + 1
    && (forall i :: 0 <= i < |replies| ==>
      && Follows(actions[i], seen[i], replies[i], seen[i + 1])
      && replies[i] == ReplyTo(AfterAll(CallsOf(actions[..i], seen[..i]), ttl), actions[i]))
    && entries == AfterAll(CallsOf(actions[..|replies|], seen[..|replies|]), ttl)
  }

  lemma UndisturbedSnoc(ttl: int, actions: seq<Action>, seen: seq<Views>, replies: seq<Option<seq<Snapshot>>>,
                        entries: map<Key, Entry<seq<Snapshot>>>, reply: Option<seq<Snapshot>>, after: Views)
    requires Undisturbed(ttl, actions, seen, replies, entries) && |replies| < |actions|
    requires var n := |replies|; reply == ReplyTo(entries, actions[n]) && Follows(actions[n], seen[n], reply, after)
    ensures var n := |replies|;
      Undisturbed(ttl, actions, seen + [after], replies + [reply], Acted(entries, actions[n], seen[n], ttl))
  {
    hide AfterAll, CallsOf, ReplyTo, Follows, Acted;
    var n := |replies|;
    var longer := seen + [after];
    assert forall k :: 0 <= k <= n + 1 ==> longer[..k] == seen[..k];
    CallsSnoc(actions, seen, n, ttl);
  }

  lemma UndisturbedStart(ttl: int, actions: seq<Action>, seen: Views)
    ensures Undisturbed(ttl, actions, [seen], [], map[])
  {
    assert actions[..0] == [] && [seen][..0] == [];
  }

  /** Callers reach what they hold, and none of the cache's memory. */
  ghost predicate Apart(cache: Cache, held: seq<array<Message>>, reach: set<object>)
    reads cache, cache.region, reach
  {
    && cache.Valid() && cache !in reach && reach !! cache.region
    && forall h :: h in held ==> Within(h, reach)
  }

  ghost function ViewsOf(held: seq<array<Message>>, reach: set<object>): (seen: Views)
    requires forall h :: h in held ==> Within(h, reach)
    reads reach
    ensures |seen| == |held| && forall i :: 0 <= i < |held| ==> seen[i] == SnapAll(held[i], reach)
  {
    seq(|held|, i requires 0 <= i < |held| && Within(held[i], reach) reads reach => SnapAll(held[i], reach))
  }

  /** Changes outside the cache's own memory change no entry. */
  twostate lemma OutsideWritesAreInvisible(cache: Cache)
    requires old(cache.Valid()) && unchanged(cache) && unchanged(cache.region)
    ensures cache.Valid() && cache.View() == old(cache.View())
  {
  }

  /**
   Writes by callers.  The contract allows any change to any of the arrays, including storing other arrays in them,
   new ones among those, and tells nothing about the result.
  */
  method ScribbleOn(held: seq<array<Message>>, ghost reach: set<object>) returns (ghost wider: set<object>)
    requires forall h :: h in held ==> Within(h, reach)
    modifies reach
    ensures reach <= wider && fresh(wider - reach) && forall h :: h in held ==> Within(h, wider)
  {
    wider := reach;
    if |held| > 0 && held[0].Length > 0 {
      var m := held[0][0];
      assert held[0] in held;
      if m.attachments.Length > 0 {
        m.attachments[0] := Attachment("", "", "", 0, "");
      }
      var reactions := new Reaction[1][Reaction(0, "", "", "", false, null)];
      wider := wider + {reactions};
      held[0][0] := m.(text := "", reactions := reactions);
    }
  }

  /** One action against a cache the callers cannot reach into, which they still cannot afterwards. */
  method Act(cache: Cache, held: seq<array<Message>>, action: Action, ghost reach: set<object>)
    returns (holding: seq<array<Message>>, ghost reply: Option<seq<Snapshot>>, ghost wider: set<object>)
    requires Apart(cache, held, reach)
    modifies cache, reach
    ensures Apart(cache, holding, wider) && fresh(wider - reach)
    ensures cache.View() == Acted(old(cache.View()), action, old(ViewsOf(held, reach)), cache.ttl)
    ensures reply == ReplyTo(old(cache.View()), action)
    ensures Follows(action, old(ViewsOf(held, reach)), reply, ViewsOf(holding, wider))
  {
    hide Answer, Store, DropChat, SnapAll, Snap;
    holding, reply, wider := held, None, reach;
    match action {
      case PutHeld(slot, key, now) =>
        var ms := new Message[0];
        if slot < |held| {
          ms := held[slot];
        }
        cache.Put(key, ms, now, reach);
      case Ask(key, now) =>
        var hit, own := cache.Get(key, now);
        if hit != null {
          reply, wider, holding := Some(SnapAll(hit, own)), reach + own, held + [hit];
          WiderRegion(hit, own, wider);
          forall h | h in held ensures Within(h, wider) && SnapAll(h, wider) == SnapAll(h, reach) {
            WiderRegion(h, reach, wider);
          }
        }
      case Forget(chatID) =>
        cache.InvalidateChat(chatID);
      case Scribble =>
        wider := ScribbleOn(held, reach);
        OutsideWritesAreInvisible(cache);
    }
  }

  /**
   Whatever callers put, ask for and invalidate, in any order, and whatever they write in between to every array they
   ever handed in or were handed: each answer is that of the calls alone, with each history as it was when it was put,
   and no call changes what callers already hold.  Timestamps are pointers here; what they point to is another matter.
  */
  method CallersCannotDisturb(cache: Cache, given: seq<array<Message>>, actions: seq<Action>, ghost theirs: set<object>)
    returns (held: seq<array<Message>>, ghost seen: seq<Views>, ghost replies: seq<Option<seq<Snapshot>>>)
    requires Apart(cache, given, theirs) && cache.View() == map[]
    modifies cache, theirs
    ensures cache.Valid() && |replies| == |actions|
    ensures Undisturbed(cache.ttl, actions, seen, replies, cache.View())
    ensures seen[0] == old(ViewsOf(given, theirs))
  {
    hide Acted, ReplyTo, Follows, Undisturbed;
    held, seen, replies := given, [ViewsOf(given, theirs)], [];
    ghost var reach := theirs;
    UndisturbedStart(cache.ttl, actions, seen[0]);
    var i := 0;
    while i < |actions|
      invariant i == |replies|
      invariant Apart(cache, held, reach) && fresh(reach - theirs)
      invariant |replies| <= |actions| && |seen| == |replies| + 1
      invariant Undisturbed(cache.ttl, actions, seen, replies, cache.View())
      invariant seen[0] == old(ViewsOf(given, theirs)) && seen[|replies|] == ViewsOf(held, reach)
      modifies cache, reach
    {
      ghost var reply, entries := None, cache.View();
      held, reply, reach := Act(cache, held, actions[i], reach);
      UndisturbedSnoc(cache.ttl, actions, seen, replies, entries, reply, ViewsOf(held, reach));
      seen, replies := seen + [ViewsOf(held, reach)], replies + [reply];
      i := i + 1;
    }
  }

  // ---------------------------------------------------------------- what is shared all the same

  lemma PutThenHit(entries: map<Key, Entry<seq<Snapshot>>>, key: Key, messages: seq<Snapshot>, now: int, later: int,
                   ttl: int)
    requires later <= now + ttl
    ensures Answer(Store(entries, key, messages, now, ttl), key, later) == Some(messages)
  {
  }

  /** Timestamps are not copied: a time written through any of them after a put is the time that a later hit shows. */
  method TimestampsAreShared(cache: Cache, key: Key, ms: array<Message>, i: nat, now: int, later: int, written: int,
                             ghost theirs: set<object>)
    returns (hit: array?<Message>)
    requires Apart(cache, [ms], theirs) && later <= now + cache.ttl
    requires i < ms.Length && ms[i].createdAt != null && ms[i].createdAt !in cache.region
    modifies cache, ms[i].createdAt
    ensures hit != null && hit.Length == ms.Length && hit[i].createdAt != null && hit[i].createdAt.at == written
  {
    hide Answer, Store, SnapAll;
    assert ms in [ms];
    ghost var content := SnapAll(ms, theirs);
    PutThenHit(cache.View(), key, content, now, later, cache.ttl);
    var stamp := ms[i].createdAt;
    assert content[i].createdAt == stamp;
    cache.Put(key, ms, now, theirs);
    ghost var view := cache.View();
    assert stamp !in cache.region;
    stamp.at := written;
    assert cache.View() == view;
    ghost var own;
    hit, own := cache.Get(key, later);
    assert SnapAll(hit, own)[i] == Snap(hit[i]);
  }
}
