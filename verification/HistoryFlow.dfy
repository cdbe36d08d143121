/**
 How the message handler, the history cache and the hub work together: `handleMessages` fills the cache from a load,
 and `watchHistoryInvalidation` drops a chat's entries for every event it receives through a channel of 32.

 A chat's history has a version that each change raises.  An entry records the version its handler loaded and, for the
 statement only, the version at the moment it was put.  The theorem says exactly when a cached history is current.
*/
module HistoryFlow {
  import opened Basics
  import opened Hub
  import opened HistoryCache

  /** A history in the cache: the version it shows, and the chat's version when it was put. */
  datatype Listing = Listing(loaded: nat, filled: nat)

  /** What a handler has loaded and not yet put. */
  datatype Load = Load(key: Key, version: nat)

  datatype Flow = Flow(
    versions: map<int, nat>,
    unannounced: seq<int>,
    channel: Chan<int>,
    lost: set<int>,
    entries: map<Key, Entry<Listing>>,
    loads: map<nat, Load>)

  datatype Event =
    | Change(chatID: int)                 // a chat changes; the watch process has yet to report it
    | Announce                            // the oldest unreported change is published on the hub
    | Process                             // the invalidation loop takes the next event from its channel
    | Fetch(thread: nat, key: Key)        // a handler that missed, some time ago, loads the history
    | Fill(thread: nat, now: int)         // it puts what it loaded into the cache
    | Evict(key: Key)                     // an expired entry is deleted

  const CHANNEL_SIZE: nat := 32
  const TTL: int := 30 * 60 * 1_000_000_000

  function VersionOf(s: Flow, chatID: int): nat {
    if chatID in s.versions then s.versions[chatID] else 0
  }

  function Start(): Flow {
    Flow(map[], [], Chan(CHANNEL_SIZE, [], false, []), {}, map[], map[])
  }

  /** One atomic step; `lost` holds the chats whose events the full channel dropped since their last invalidation. */
  function Step(s: Flow, ev: Event): Flow {
    match ev
    case Change(chatID) =>
      s.(versions := s.versions[chatID := VersionOf(s, chatID) + 1], unannounced := s.unannounced + [chatID])
    case Announce =>
      if s.unannounced == [] then s
      else
        var chatID := s.unannounced[0];
        var c := Offer(s.channel, chatID);
        s.(unannounced := s.unannounced[1..], channel := c,
           lost := if c == s.channel then s.lost + {chatID} else s.lost)
    case Process =>
      if s.channel.buffer == [] then s
      else
        var chatID := s.channel.buffer[0];
        var taken := s.(channel := Take(s.channel));
        if chatID == 0 then taken
        else taken.(entries := DropChat(s.entries, chatID), lost := s.lost - {chatID})
    case Fetch(thread, key) =>
      if thread in s.loads then s
      else s.(loads := s.loads[thread := Load(key, VersionOf(s, key.chatID))])
    case Fill(thread, now) =>
      if thread !in s.loads then s
      else
        var load := s.loads[thread];
        var listing := Listing(load.version, VersionOf(s, load.key.chatID));
        s.(entries := HistoryCache.Store(s.entries, load.key, listing, now, TTL), loads := s.loads - {thread})
    case Evict(key) => s.(entries := s.entries - {key})
  }

  function Run(events: seq<Event>): Flow {
    if events == [] then Start() else Step(Run(events[..|events| - 1]), events[|events| - 1])
  }

  /** An invalidation of the chat is still to come, or will not come. */
  predicate Pending(s: Flow, chatID: int) {
    || chatID in s.unannounced        // a change has not been reported yet
    || chatID in s.channel.buffer     // an event for the chat waits for the invalidation loop
    || chatID in s.lost               // the channel was full when an event for the chat was published
    || chatID == 0                    // events without a chat invalidate nothing
  }

  /** An entry is no newer than its put, its put no newer than the chat, and no change since its put goes unnoticed. */
  predicate EntryFits(s: Flow, key: Key, e: Entry<Listing>) {
    && e.chatID == key.chatID
    && e.messages.loaded <= e.messages.filled <= VersionOf(s, key.chatID)
    && (e.messages.filled == VersionOf(s, key.chatID) || Pending(s, key.chatID))
  }

  ghost predicate Inv(s: Flow) {
    && (forall k :: k in s.entries ==> EntryFits(s, k, s.entries[k]))
    && (forall t :: t in s.loads ==> s.loads[t].version <= VersionOf(s, s.loads[t].key.chatID))
  }

  /** A step leaves a fitting entry fitting, except that Process empties the chat whose event it takes. */
  lemma StepFits(s: Flow, ev: Event, key: Key, e: Entry<Listing>)
    requires EntryFits(s, key, e)
    requires ev == Process && s.channel.buffer != [] ==> s.channel.buffer[0] != key.chatID || key.chatID == 0
    ensures EntryFits(Step(s, ev), key, e)
  {
    var after := Step(s, ev);
    match ev
    case Change(c) => assert after.unannounced[|s.unannounced|] == c;
    case Announce =>
      if s.unannounced != [] {
        assert s.unannounced == [s.unannounced[0]] + after.unannounced;
        if after.channel != s.channel {
          assert after.channel.buffer == s.channel.buffer + [s.unannounced[0]];
        }
      }
    case Process =>
      if s.channel.buffer != [] { assert s.channel.buffer == [s.channel.buffer[0]] + after.channel.buffer; }
    case _ =>
  }

  lemma StepKeepsInv(s: Flow, ev: Event)
    requires Inv(s)
    ensures Inv(Step(s, ev))
  {
    hide Pending, Offer, Take;
    var after := Step(s, ev);
    forall k | k in after.entries ensures EntryFits(after, k, after.entries[k]) {
      if ev.Fill? && ev.thread in s.loads && k == s.loads[ev.thread].key {
      } else {
        StepFits(s, ev, k, s.entries[k]);
      }
    }
  }

  lemma {:induction false} RunKeepsInv(events: seq<Event>)
    ensures Inv(Run(events))
  {
    hide Step;
    if events != [] {
      hide Inv;
      RunKeepsInv(events[..|events| - 1]);
      StepKeepsInv(Run(events[..|events| - 1]), events[|events| - 1]);
    }
  }

  /**
   For every interleaving of changes, events and handlers, and every cached history: it is the chat's current one if and
   only if the chat changed neither between its load and its put nor since; and once no change of the chat is
   unreported, waiting or lost, and the chat is not 0, the second cannot be, so the load alone decides.
  */
  lemma CurrentExactlyIfLoadUndisturbed(events: seq<Event>, key: Key)
    requires key in Run(events).entries
    ensures var s := Run(events); var l := s.entries[key].messages; var current := VersionOf(s, key.chatID);
      && l.loaded <= l.filled <= current
      && (l.loaded == current <==> l.loaded == l.filled && l.filled == current)
      && (!Pending(s, key.chatID) ==> (l.loaded == current <==> l.loaded == l.filled))
  {
    hide Run, Pending;
    RunKeepsInv(events);
    assert EntryFits(Run(events), key, Run(events).entries[key]);
  }

  // ---------------------------------------------------------------- what single events do

  lemma StepKeepsRoom(s: Flow, ev: Event)
    requires |s.channel.buffer| <= s.channel.cap
    ensures var after := Step(s, ev);
      after.channel.cap == s.channel.cap && |after.channel.buffer| <= after.channel.cap
  {
  }

  lemma {:induction false} ChannelHas32(events: seq<Event>)
    ensures Run(events).channel.cap == 32 && |Run(events).channel.buffer| <= 32
  {
    hide Step;
    if events != [] {
      ChannelHas32(events[..|events| - 1]);
      StepKeepsRoom(Run(events[..|events| - 1]), events[|events| - 1]);
    }
  }

  /** After any run, the oldest unreported change, once published, waits for the loop, or is lost if 32 events wait. */
  lemma {:induction false} AnnounceQueuesOrLoses(events: seq<Event>)
    requires Run(events).unannounced != []
    ensures var s := Run(events); var after := Step(s, Announce); var chatID := s.unannounced[0];
      && after.unannounced == s.unannounced[1..] && after.entries == s.entries
      && after.channel.buffer == (if |s.channel.buffer| == 32 then s.channel.buffer else s.channel.buffer + [chatID])
      && after.lost == (if |s.channel.buffer| == 32 then s.lost + {chatID} else s.lost)
  {
    hide Run;
    ChannelHas32(events);
  }

  /** The loop takes the oldest waiting event and drops the entries of its chat and no others, and none for chat 0. */
  lemma ProcessDropsItsChatOnly(s: Flow, key: Key)
    requires s.channel.buffer != []
    ensures var after := Step(s, Process); var chatID := s.channel.buffer[0];
      && after.channel.buffer == s.channel.buffer[1..]
      && (key in after.entries <==> key in s.entries && (chatID == 0 || s.entries[key].chatID != chatID))
      && (key in after.entries ==> after.entries[key] == s.entries[key])
  {
  }

  /** After any run, a load that is put at once shows the chat as it is, under its key; other entries stay. */
  lemma {:induction false} PromptLoadIsCurrent(events: seq<Event>, thread: nat, key: Key, now: int)
    requires thread !in Run(events).loads
    ensures var s := Run(events); var after := Run(events + [Fetch(thread, key), Fill(thread, now)]);
      var version := VersionOf(s, key.chatID);
      after.entries == s.entries[key := Entry(key.chatID, now + 30 * 60 * 1_000_000_000, Listing(version, version))]
  {
    var all := events + [Fetch(thread, key), Fill(thread, now)];
    var fetched := events + [Fetch(thread, key)];
    assert all[..|all| - 1] == fetched && fetched[..|fetched| - 1] == events;
  }

  /** Outdated, with nothing unreported, waiting or lost. */
  predicate StaleQuietly(s: Flow, key: Key) {
    && key in s.entries && s.entries[key].messages.loaded < VersionOf(s, key.chatID) && key.chatID != 0
    && s.unannounced == [] && s.channel.buffer == [] && s.lost == {}
  }

  /** A disturbed load does happen: with nothing unreported, waiting or lost, an outdated history stays in the cache. */
  lemma DisturbedLoadGoesStale()
    ensures exists events, key :: StaleQuietly(Run(events), key)
  {
    var key := Key(7, 50, None, None, true);
    var e1 := [Fetch(0, key)];
    var e2 := e1 + [Change(7)];
    var e3 := e2 + [Announce];
    var e4 := e3 + [Process];
    var e5 := e4 + [Fill(0, 0)];
    assert e1[..0] == [] && e2[..1] == e1 && e3[..2] == e2 && e4[..3] == e3 && e5[..4] == e4;
    DisturbedSteps(key);
    hide Step;
    assert Run(e1) == Step(Start(), Fetch(0, key));
    assert Run(e2) == Step(Run(e1), Change(7));
    assert Run(e3) == Step(Run(e2), Announce);
    assert Run(e4) == Step(Run(e3), Process);
    assert Run(e5) == Step(Run(e4), Fill(0, 0));
    assert StaleQuietly(Run(e5), key);
  }

  lemma DisturbedSteps(key: Key)
    requires key.chatID == 7
    ensures var processed := Step(Step(Step(Step(Start(), Fetch(0, key)), Change(7)), Announce), Process);
      StaleQuietly(Step(processed, Fill(0, 0)), key)
  {
    var s1 := Step(Start(), Fetch(0, key));
    var s2 := Step(s1, Change(7));
    var s3 := Step(s2, Announce);
    var s4 := Step(s3, Process);
    assert s1.loads[0] == Load(key, 0);
    assert s2.unannounced == [7] && VersionOf(s2, 7) == 1;
    assert s3.channel.buffer == [7] && s3.unannounced == [] && s3.lost == {};
    assert s4.channel.buffer == [] && s4.loads[0] == Load(key, 0) && s4.lost == {};
  }
}
