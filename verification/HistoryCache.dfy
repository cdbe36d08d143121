/**
 The message-history cache of internal/api/history_cache.go: entries expire after a fixed time to live, and a chat's
 entries are dropped when an event for the chat arrives.  `Get` looks an entry up and, if it has expired, deletes it in
 a second critical section; the protocol below splits it accordingly.
*/
module HistoryCache {
  import opened Basics

  /** The arguments that make up `messageHistoryKey`; the printed key is assumed injective in them. */
  datatype Key = Key(chatID: int, limit: int, before: Option<int>, after: Option<int>, attachments: bool)

  datatype Entry<+M> = Entry(chatID: int, expiresAt: int, messages: M)

  // ---------------------------------------------------------------- operations on the table

  function Store<M>(entries: map<Key, Entry<M>>, key: Key, messages: M, now: int, ttl: int): map<Key, Entry<M>> {
    entries[key := Entry(key.chatID, now + ttl, messages)]
  }

  function DropChat<M>(entries: map<Key, Entry<M>>, chatID: int): map<Key, Entry<M>> {
    map k | k in entries && entries[k].chatID != chatID :: entries[k]
  }

  function Lookup<M>(entries: map<Key, Entry<M>>, key: Key): Option<Entry<M>> {
    if key in entries then Some(entries[key]) else None
  }

  // ---------------------------------------------------------------- the concurrent protocol

  /** What a goroutine inside `Get` has done so far. */
  datatype Phase<+M> = Idle | Holding(key: Key, entry: Option<Entry<M>>) | Deleting(key: Key)

  /** One critical section, or the clock check between the two sections of a `Get`. */
  datatype Step<+M> =
    | Read(thread: nat, key: Key)
    | Check(thread: nat, now: int)
    | Delete(thread: nat)
    | Put(key: Key, messages: M, now: int)
    | Invalidate(chatID: int)

  datatype State<!M> = State(entries: map<Key, Entry<M>>, phases: map<nat, Phase<M>>)

  function PhaseOf<M>(s: State<M>, thread: nat): Phase<M> {
    if thread in s.phases then s.phases[thread] else Idle
  }

  /** A step that a thread is not ready for changes nothing. */
  function Apply<M>(s: State<M>, step: Step<M>, ttl: int): State<M> {
    match step
    case Read(thread, key) =>
      if PhaseOf(s, thread).Idle? then s.(phases := s.phases[thread := Holding(key, Lookup(s.entries, key))]) else s
    case Check(thread, now) =>
      (match PhaseOf(s, thread)
       case Holding(key, Some(entry)) =>
         s.(phases := s.phases[thread := if now > entry.expiresAt then Deleting(key) else Idle])
       case Holding(key, None) => s.(phases := s.phases[thread := Idle])
       case _ => s)
    case Delete(thread) =>
      (match PhaseOf(s, thread)
       case Deleting(key) => State(s.entries - {key}, s.phases[thread := Idle])
       case _ => s)
    case Put(key, messages, now) => s.(entries := Store(s.entries, key, messages, now, ttl))
    case Invalidate(chatID) => s.(entries := DropChat(s.entries, chatID))
  }

  function Run<M>(steps: seq<Step<M>>, ttl: int): State<M> {
    if steps == [] then State(map[], map[])
    else Apply(Run(steps[..|steps| - 1], ttl), steps[|steps| - 1], ttl)
  }

  /** The messages a thread's clock check returns as a hit, if it does. */
  function Hit<M>(s: State<M>, thread: nat, now: int): Option<M> {
    match PhaseOf(s, thread)
    case Holding(_, Some(entry)) => if now > entry.expiresAt then None else Some(entry.messages)
    case _ => None
  }

  // ---------------------------------------------------------------- the reference: remember the last put

  /** A put that no later put of the key and no later invalidation of its chat has superseded. */
  datatype Fact<+M> = Fact(messages: M, storedAt: int)

  function LastPut<M>(steps: seq<Step<M>>, key: Key): Option<Fact<M>> {
    if steps == [] then None
    else
      var before := LastPut(steps[..|steps| - 1], key);
      match steps[|steps| - 1]
      case Put(k, messages, now) => if k == key then Some(Fact(messages, now)) else before
      case Invalidate(chatID) => if chatID == key.chatID then None else before
      case _ => before
  }

  /** Since that put, no expired-entry deletion of the key has run. */
  predicate Undeleted<M>(steps: seq<Step<M>>, key: Key, ttl: int) {
    if steps == [] then true
    else
      var front := steps[..|steps| - 1];
      match steps[|steps| - 1]
      case Put(k, _, _) => k == key || Undeleted(front, key, ttl)
      case Delete(thread) => PhaseOf(Run(front, ttl), thread) != Deleting(key) && Undeleted(front, key, ttl)
      case _ => Undeleted(front, key, ttl)
  }

  /** The table holds exactly the facts that no racing deletion removed. */
  lemma {:induction false} TableIsFacts<M>(steps: seq<Step<M>>, key: Key, ttl: int)
    ensures Lookup(Run(steps, ttl).entries, key)
         == match LastPut(steps, key)
            case None => None
            case Some(f) =>
              if Undeleted(steps, key, ttl) then Some(Entry(key.chatID, f.storedAt + ttl, f.messages)) else None
  {
    if steps != [] {
      TableIsFacts(steps[..|steps| - 1], key, ttl);
    }
  }

  /** The thread began its current Get, of `key`, with the Read at position `at`, and has made no clock check since. */
  ghost predicate BeganAt<M>(steps: seq<Step<M>>, thread: nat, at: nat, ttl: int, key: Key) {
    && at < |steps| && steps[at] == Read(thread, key)
    && PhaseOf(Run(steps[..at], ttl), thread).Idle?
    && forall k :: at < k < |steps| ==> !(steps[k].Check? && steps[k].thread == thread)
  }

  lemma {:induction false} HeldSinceRead<M>(steps: seq<Step<M>>, thread: nat, ttl: int) returns (at: nat)
    requires PhaseOf(Run(steps, ttl), thread).Holding?
    ensures var p := PhaseOf(Run(steps, ttl), thread);
      BeganAt(steps, thread, at, ttl, p.key) && p.entry == Lookup(Run(steps[..at], ttl).entries, p.key)
  {
    var n := |steps| - 1;
    var front := steps[..n];
    if PhaseOf(Run(front, ttl), thread).Holding? {
      at := HeldSinceRead(front, thread, ttl);
      assert front[..at] == steps[..at] && front[at] == steps[at];
      assert forall k :: at < k < n ==> steps[k] == front[k];
    } else {
      at := n;
    }
  }

  /**
   Whatever interleaves with a Get's sections: it hits exactly when the key's last put before this Get's read was not
   invalidated by then, lost no race with an expired-entry deletion by then, and is no older than the time to live at
   the clock check; and it hits with that put's messages.
  */
  lemma InterleavedGetIsExact<M>(steps: seq<Step<M>>, thread: nat, now: int, ttl: int) returns (at: nat)
    requires PhaseOf(Run(steps, ttl), thread).Holding?
    ensures var key := PhaseOf(Run(steps, ttl), thread).key;
      && BeganAt(steps, thread, at, ttl, key)
      && Hit(Run(steps, ttl), thread, now)
         == match LastPut(steps[..at], key)
            case None => None
            case Some(f) =>
              if now - f.storedAt <= ttl && Undeleted(steps[..at], key, ttl) then Some(f.messages) else None
  {
    at := HeldSinceRead(steps, thread, ttl);
    TableIsFacts(steps[..at], PhaseOf(Run(steps, ttl), thread).key, ttl);
  }

  /**
   A Get whose sections are not interleaved with anything hits exactly when the last put of the key has not been
   invalidated, is no older than the time to live, and lost no race with an expired-entry deletion.
  */
  lemma UninterruptedGet<M>(steps: seq<Step<M>>, thread: nat, key: Key, now: int, ttl: int)
    requires PhaseOf(Run(steps, ttl), thread).Idle?
    ensures Hit(Run(steps + [Read(thread, key)], ttl), thread, now)
         == match LastPut(steps, key)
            case None => None
            case Some(f) => if now - f.storedAt <= ttl && Undeleted(steps, key, ttl) then Some(f.messages) else None
  {
    var read := steps + [Read(thread, key)];
    assert read[..|steps|] == steps;
    TableIsFacts(steps, key, ttl);
  }

  // ---------------------------------------------------------------- the race, exactly

  /** The clock readings of the steps never run backwards, and `end` is not before any of them. */
  predicate Ordered<M>(steps: seq<Step<M>>, end: int) {
    if steps == [] then true
    else
      var t := Reading(steps[|steps| - 1], end);
      t <= end && Ordered(steps[..|steps| - 1], t)
  }

  function Reading<M>(step: Step<M>, otherwise: int): int {
    match step
    case Check(_, now) => now
    case Put(_, _, now) => now
    case _ => otherwise
  }

  predicate InGetOf<M>(p: Phase<M>, key: Key) {
    !p.Idle? && p.key == key
  }

  /** The thread is inside a Get of `key` that it began before the key's last put. */
  predicate BeganBeforePut<M>(steps: seq<Step<M>>, thread: nat, key: Key, ttl: int) {
    if steps == [] then false
    else
      var front := steps[..|steps| - 1];
      && InGetOf(PhaseOf(Run(steps, ttl), thread), key)
      && if steps[|steps| - 1].Put? && steps[|steps| - 1].key == key then true
         else InGetOf(PhaseOf(Run(front, ttl), thread), key) && BeganBeforePut(front, thread, key, ttl)
  }

  /** Since the key's last put, a Get of the key that began before it has deleted the entry. */
  predicate RacedOut<M>(steps: seq<Step<M>>, key: Key, ttl: int) {
    if steps == [] then false
    else
      var front := steps[..|steps| - 1];
      match steps[|steps| - 1]
      case Put(k, _, _) => k != key && RacedOut(front, key, ttl)
      case Delete(thread) =>
        || (PhaseOf(Run(front, ttl), thread) == Deleting(key) && BeganBeforePut(front, thread, key, ttl))
        || RacedOut(front, key, ttl)
      case _ => RacedOut(front, key, ttl)
  }

  /** A Get begun after the last put holds that put's entry or nothing, and deletes only once it has expired. */
  lemma {:induction false} LaterGetsSeeThePut<M>(steps: seq<Step<M>>, thread: nat, key: Key, ttl: int, end: int)
    requires Ordered(steps, end) && LastPut(steps, key).Some?
    requires InGetOf(PhaseOf(Run(steps, ttl), thread), key) && !BeganBeforePut(steps, thread, key, ttl)
    ensures var (f, p) := (LastPut(steps, key).value, PhaseOf(Run(steps, ttl), thread));
      && (p.Holding? && p.entry.Some? ==> p.entry.value.expiresAt == f.storedAt + ttl)
      && (p.Deleting? ==> end > f.storedAt + ttl)
  {
    var front := steps[..|steps| - 1];
    if InGetOf(PhaseOf(Run(front, ttl), thread), key) {
      LaterGetsSeeThePut(front, thread, key, ttl, Reading(steps[|steps| - 1], end));
    } else {
      TableIsFacts(front, key, ttl);
    }
  }

  /** A put that is still fresh has been deleted exactly when a Get begun before it did so. */
  lemma {:induction false} FreshPutsLoseOnlyRaces<M>(steps: seq<Step<M>>, key: Key, ttl: int, now: int)
    requires Ordered(steps, now) && LastPut(steps, key).Some? && now - LastPut(steps, key).value.storedAt <= ttl
    ensures Undeleted(steps, key, ttl) <==> !RacedOut(steps, key, ttl)
  {
    var front, last := steps[..|steps| - 1], steps[|steps| - 1];
    if !(last.Put? && last.key == key) {
      FreshPutsLoseOnlyRaces(front, key, ttl, Reading(last, now));
      if last.Delete? && PhaseOf(Run(front, ttl), last.thread) == Deleting(key)
         && !BeganBeforePut(front, last.thread, key, ttl) {
        LaterGetsSeeThePut(front, last.thread, key, ttl, now);
      }
    }
  }

  /**
   With a clock that does not run backwards: an uninterrupted Get after any interleaved past hits exactly when the last
   put of the key is not invalidated, is no older than the time to live, and was not deleted by a Get begun before it.
  */
  lemma UninterruptedGetOnClock<M>(steps: seq<Step<M>>, thread: nat, key: Key, now: int, ttl: int)
    requires PhaseOf(Run(steps, ttl), thread).Idle? && Ordered(steps, now)
    ensures Hit(Run(steps + [Read(thread, key)], ttl), thread, now)
         == match LastPut(steps, key)
            case None => None
            case Some(f) => if now - f.storedAt <= ttl && !RacedOut(steps, key, ttl) then Some(f.messages) else None
  {
    UninterruptedGet(steps, thread, key, now, ttl);
    var fact := LastPut(steps, key);
    if fact.Some? && now - fact.value.storedAt <= ttl { FreshPutsLoseOnlyRaces(steps, key, ttl, now); }
  }

  /** The race is real: a Get that read an expired entry can delete a newer put, which then misses while fresh. */
  lemma DeletionCanLoseFreshPut()
    ensures exists steps: seq<Step<int>>, key: Key, ttl: int, now: int ::
      && LastPut(steps, key).Some? && now - LastPut(steps, key).value.storedAt <= ttl
      && Hit(Run(steps + [Read(1, key)], ttl), 1, now).None?
  {
    var key := Key(7, 50, None, None, true);
    var s1: seq<Step<int>> := [Put(key, 1, 0)];
    var s2 := s1 + [Read(0, key)];
    var s3 := s2 + [Check(0, 11)];
    var s4 := s3 + [Put(key, 2, 12)];
    var s5 := s4 + [Delete(0)];
    assert s1[..0] == [] && s2[..1] == s1 && s3[..2] == s2 && s4[..3] == s3 && s5[..4] == s4;
    assert Run(s1[..0], 10) == State(map[], map[]);
    assert Run(s1, 10).entries[key] == Entry(7, 10, 1) && Run(s1, 10).phases == map[];
    assert PhaseOf(Run(s2, 10), 1) == PhaseOf(Run(s3, 10), 1) == Idle;
    assert PhaseOf(Run(s2, 10), 0) == Holding(key, Some(Entry(7, 10, 1)));
    assert PhaseOf(Run(s3, 10), 0) == Deleting(key);
    assert PhaseOf(Run(s4, 10), 0) == Deleting(key) && PhaseOf(Run(s4, 10), 1) == Idle;
    assert LastPut(s5, key) == Some(Fact(2, 12));
    UninterruptedGet(s5, 1, key, 13, 10);
    assert 13 - LastPut(s5, key).value.storedAt <= 10;
    assert Hit(Run(s5 + [Read(1, key)], 10), 1, 13).None?;
  }

  // ---------------------------------------------------------------- sequential use

  datatype Call<+M> =
    | CallGet(key: Key, now: int)
    | CallPut(key: Key, messages: M, now: int)
    | CallInvalidate(chatID: int)

  /** The table after one whole call. */
  function After<M>(entries: map<Key, Entry<M>>, call: Call<M>, ttl: int): map<Key, Entry<M>> {
    match call
    case CallGet(key, now) => if key in entries && now > entries[key].expiresAt then entries - {key} else entries
    case CallPut(key, messages, now) => Store(entries, key, messages, now, ttl)
    case CallInvalidate(chatID) => DropChat(entries, chatID)
  }

  function Answer<M>(entries: map<Key, Entry<M>>, key: Key, now: int): Option<M> {
    if key in entries && now <= entries[key].expiresAt then Some(entries[key].messages) else None
  }

  function AfterAll<M>(calls: seq<Call<M>>, ttl: int): map<Key, Entry<M>> {
    if calls == [] then map[] else After(AfterAll(calls[..|calls| - 1], ttl), calls[|calls| - 1], ttl)
  }

  /** Run without interruption, the three sections of a Get do to the table what one whole call does. */
  lemma WholeGetIsItsSections<M>(steps: seq<Step<M>>, thread: nat, key: Key, now: int, ttl: int)
    requires PhaseOf(Run(steps, ttl), thread).Idle?
    ensures var whole := steps + [Read(thread, key), Check(thread, now), Delete(thread)];
      && Run(whole, ttl).entries == After(Run(steps, ttl).entries, CallGet(key, now), ttl)
      && PhaseOf(Run(whole, ttl), thread).Idle?
    ensures Hit(Run(steps + [Read(thread, key)], ttl), thread, now) == Answer(Run(steps, ttl).entries, key, now)
  {
    var read := steps + [Read(thread, key)];
    var checked := read + [Check(thread, now)];
    var whole := checked + [Delete(thread)];
    assert read[..|steps|] == steps && checked[..|read|] == read && whole[..|checked|] == checked;
    assert whole == steps + [Read(thread, key), Check(thread, now), Delete(thread)];
    var s := Run(steps, ttl);
    assert PhaseOf(Run(read, ttl), thread) == Holding(key, Lookup(s.entries, key));
    if key !in s.entries { assert s.entries - {key} == s.entries; }
  }

  /** The reference never evicts: it only remembers the last put of each key and forgets on invalidation. */
  function Remembered<M>(calls: seq<Call<M>>, key: Key): Option<Fact<M>> {
    if calls == [] then None
    else
      var before := Remembered(calls[..|calls| - 1], key);
      match calls[|calls| - 1]
      case CallPut(k, messages, now) => if k == key then Some(Fact(messages, now)) else before
      case CallInvalidate(chatID) => if chatID == key.chatID then None else before
      case CallGet(_, _) => before
  }

  function Clock<M>(call: Call<M>, otherwise: int): int {
    match call
    case CallGet(_, now) => now
    case CallPut(_, _, now) => now
    case CallInvalidate(_) => otherwise
  }

  /** The clock readings of the calls never run backwards, and `end` is not before any of them. */
  predicate Timely<M>(calls: seq<Call<M>>, end: int) {
    if calls == [] then true
    else
      var t := Clock(calls[|calls| - 1], end);
      t <= end && Timely(calls[..|calls| - 1], t)
  }

  /** An entry that eviction has removed is one the reference would call expired from then on. */
  lemma {:induction false} EvictedIsExpired<M>(calls: seq<Call<M>>, key: Key, end: int, ttl: int)
    requires Timely(calls, end)
    ensures var entries := AfterAll(calls, ttl);
      match Remembered(calls, key)
      case None => key !in entries
      case Some(f) =>
        if key in entries then entries[key] == Entry(key.chatID, f.storedAt + ttl, f.messages)
        else end > f.storedAt + ttl
  {
    if calls != [] {
      EvictedIsExpired(calls[..|calls| - 1], key, Clock(calls[|calls| - 1], end), ttl);
      KeysMatchChats(calls[..|calls| - 1], key, ttl);
    }
  }

  lemma {:induction false} KeysMatchChats<M>(calls: seq<Call<M>>, key: Key, ttl: int)
    ensures var entries := AfterAll(calls, ttl); key in entries ==> entries[key].chatID == key.chatID
  {
    if calls != [] { KeysMatchChats(calls[..|calls| - 1], key, ttl); }
  }

  /** Used by one caller at a time, Get hits with `v` exactly if `v` was last put, is young enough, not invalidated. */
  lemma GetRefinesReference<M>(calls: seq<Call<M>>, key: Key, now: int, ttl: int)
    requires Timely(calls, now)
    ensures Answer(AfterAll(calls, ttl), key, now)
         == match Remembered(calls, key)
            case None => None
            case Some(f) => if now - f.storedAt <= ttl then Some(f.messages) else None
  {
    EvictedIsExpired(calls, key, now, ttl);
  }
}
