/** The event log and its live streams: emitEvent, getEvents, openEventStream and startEventStream. */
module EventRail {
  import opened Utf16
  import opened CanonicalJson
  import opened JsonParser

  // ---------------------------------------------------------------- events and filters

  datatype Event = Event(eventType: Str, subject: Str, payload: Json)

  /** The comma-separated lists of the query, without empty entries; an empty list admits everything. */
  datatype Filter = Filter(types: seq<Str>, subjects: seq<Str>)

  predicate Matches(f: Filter, e: Event)
  {
    (f.types == [] || e.eventType in f.types) && (f.subjects == [] || e.subject in f.subjects)
  }

  function Matching(f: Filter, events: seq<Event>): (r: seq<Event>)
    ensures |r| <= |events|
  {
    if events == [] then []
    else Matching(f, events[..|events| - 1]) + if Matches(f, events[|events| - 1]) then [events[|events| - 1]] else []
  }

  lemma {:induction false} MatchingConcat(f: Filter, a: seq<Event>, b: seq<Event>)
    ensures Matching(f, a + b) == Matching(f, a) + Matching(f, b)
  {
    if b == [] {
      assert a + b == a;
    } else {
      var front := b[..|b| - 1];
      assert (a + b)[..|a + b| - 1] == a + front;
      MatchingConcat(f, a, front);
    }
  }

  lemma {:induction false} MatchingEmpty(f: Filter, events: seq<Event>)
    ensures Matching(f, events) == [] <==> forall i | 0 <= i < |events| :: !Matches(f, events[i])
  {
    if events != [] {
      MatchingEmpty(f, events[..|events| - 1]);
    }
  }

  // Two event types are followed by an event of another name.

  // passport.key_rotated
  const KEY_ROTATED: Str := [
    0x70, 0x61, 0x73, 0x73, 0x70, 0x6F, 0x72, 0x74, 0x2E, 0x6B, 0x65, 0x79, 0x5F, 0x72, 0x6F, 0x74, 0x61, 0x74,
    0x65, 0x64]
  // passport.rotated
  const ROTATED: Str := [
    0x70, 0x61, 0x73, 0x73, 0x70, 0x6F, 0x72, 0x74, 0x2E, 0x72, 0x6F, 0x74, 0x61, 0x74, 0x65, 0x64]
  // warroom.alerted
  const ALERTED: Str := [0x77, 0x61, 0x72, 0x72, 0x6F, 0x6F, 0x6D, 0x2E, 0x61, 0x6C, 0x65, 0x72, 0x74, 0x65, 0x64]
  // warroom.alert.raised
  const ALERT_RAISED: Str := [
    0x77, 0x61, 0x72, 0x72, 0x6F, 0x6F, 0x6D, 0x2E, 0x61, 0x6C, 0x65, 0x72, 0x74, 0x2E, 0x72, 0x61, 0x69, 0x73,
    0x65, 0x64]

  function AliasType(eventType: Str): Option<Str>
  {
    if eventType == KEY_ROTATED then Some(ROTATED) else if eventType == ALERTED then Some(ALERT_RAISED) else None
  }

  /** The alias event of an event; its payload differs in id, type and time. */
  function AliasOf(e: Event, payload: Json): (r: Option<Event>)
    ensures r.Some? <==> e.eventType == KEY_ROTATED || e.eventType == ALERTED
    ensures r.Some? ==> r.value.subject == e.subject && r.value.payload == payload
    ensures r.Some? ==> r.value.eventType == if e.eventType == KEY_ROTATED then ROTATED else ALERT_RAISED
  {
    match AliasType(e.eventType)
    case Some(t) => Some(Event(t, e.subject, payload))
    case None => None
  }

  // ---------------------------------------------------------------- replay

  const REPLAY_LIMIT: nat := 100

  /** The `since` parameter: absent, a number, or text that is not a number. */
  datatype Since = Absent | Numeric(n: real) | NotNumeric

  function Clip(n: int, high: nat): (r: nat)
    ensures r <= high
  {
    if n < 0 then 0 else if n > high then high else n
  }

  /** Index of the first event a subscription with this `since` asks for; the event at index i has
      sequence number i + 1. Absent and zero both ask for the latest hundred. */
  function FirstIndex(since: Since, length: nat): (r: nat)
    ensures r <= length
  {
    match since
    case Absent => Clip(length - REPLAY_LIMIT, length)
    case Numeric(n) => if n == 0.0 then Clip(length - REPLAY_LIMIT, length) else Clip(n.Floor, length)
    case NotNumeric => length
  }

  /** End of the replay: at most a hundred events from the first one. */
  function ReplayEnd(first: nat, length: nat): (r: nat)
    requires first <= length
    ensures first <= r <= length
    ensures length - first <= REPLAY_LIMIT ==> r == length
  {
    Clip(first + REPLAY_LIMIT, length)
  }

  /** getEvents */
  function GetEvents(log: seq<Event>, since: Since): seq<Event>
  {
    var first := FirstIndex(since, |log|);
    log[first..ReplayEnd(first, |log|)]
  }

  /** What a subscriber that asked for events from index `first` on, when the log had `joined`
      events, has been sent by now: the replay and everything emitted since. */
  function Sent(f: Filter, log: seq<Event>, first: nat, joined: nat): seq<Event>
    requires first <= joined <= |log|
  {
    Matching(f, log[first..ReplayEnd(first, joined)]) + Matching(f, log[joined..])
  }

  lemma SentExtends(f: Filter, log: seq<Event>, first: nat, joined: nat, e: Event)
    requires first <= joined <= |log|
    ensures Sent(f, log + [e], first, joined) == Sent(f, log, first, joined) + if Matches(f, e) then [e] else []
  {
    var log' := log + [e];
    var end := ReplayEnd(first, joined);
    assert log'[first..end] == log[first..end];
    assert log'[joined..] == log[joined..] + [e];
    MatchingConcat(f, log[joined..], [e]);
    assert Matching(f, [e]) == Matching(f, []) + if Matches(f, e) then [e] else [] by { assert [e][..0] == []; }
  }

  /** Leaving out the middle shows exactly when something in it matches. */
  lemma MissedShows(f: Filter, replay: seq<Event>, missed: seq<Event>, live: seq<Event>)
    ensures Matching(f, replay) + Matching(f, live) == Matching(f, replay + (missed + live)) <==>
            forall i | 0 <= i < |missed| :: !Matches(f, missed[i])
  {
    MatchingConcat(f, replay, missed + live);
    MatchingConcat(f, missed, live);
    MatchingEmpty(f, missed);
    if Matching(f, missed) == [] {
      assert Matching(f, missed) + Matching(f, live) == Matching(f, live);
    } else {
      assert |Matching(f, replay) + Matching(f, live)| < |Matching(f, replay + (missed + live))|;
    }
  }

  /** Exactly-once handoff: a subscriber has been sent the filtered log from its first event on,
      without gap or duplicate, exactly when nothing it asked for lay beyond the hundred replayed
      events at the moment it joined. */
  lemma ExactlyOnce(f: Filter, log: seq<Event>, first: nat, joined: nat)
    requires first <= joined <= |log|
    ensures Sent(f, log, first, joined) == Matching(f, log[first..])
            <==> forall i | ReplayEnd(first, joined) <= i < joined :: !Matches(f, log[i])
    ensures joined - first <= REPLAY_LIMIT ==> Sent(f, log, first, joined) == Matching(f, log[first..])
  {
    var end := ReplayEnd(first, joined);
    var replay, missed, live := log[first..end], log[end..joined], log[joined..];
    assert log[first..] == replay + (missed + live);
    MissedShows(f, replay, missed, live);
    assert forall i | end <= i < joined :: log[i] == missed[i - end];
    assert forall i | 0 <= i < |missed| :: missed[i] == log[end + i];
  }

  /** Without `since`, or with since=0, there is never a gap. */
  lemma LatestHundredHasNoGap(f: Filter, log: seq<Event>, since: Since, joined: nat)
    requires joined <= |log| && (since == Absent || since == Numeric(0.0))
    ensures var first := FirstIndex(since, joined); Sent(f, log, first, joined) == Matching(f, log[first..])
  {
    ExactlyOnce(f, log, FirstIndex(since, joined), joined);
  }

  // ---------------------------------------------------------------- who gets what

  /** The event is of a listed type and about a listed subject; an empty list admits all. */
  ghost predicate Wanted(f: Filter, e: Event)
  {
    && (f.types != [] ==> exists i | 0 <= i < |f.types| :: f.types[i] == e.eventType)
    && (f.subjects != [] ==> exists i | 0 <= i < |f.subjects| :: f.subjects[i] == e.subject)
  }

  lemma MatchesWanted(f: Filter, e: Event)
    ensures Matches(f, e) <==> Wanted(f, e)
  {
  }

  /** The event at index i, whose sequence number is i + 1, is asked for of a log of that length: one of the latest
      hundred without `since` or with 0, one with a larger number than a numeric `since`, none otherwise. */
  predicate AskedFor(since: Since, length: nat, i: nat)
  {
    match since
    case Absent => i + 100 >= length
    case Numeric(n) => if n == 0.0 then i + 100 >= length else (i + 1) as real > n
    case NotNumeric => false
  }

  lemma AskedFromFirst(since: Since, length: nat, i: nat)
    requires i < length
    ensures AskedFor(since, length, i) <==> FirstIndex(since, length) <= i
  {
  }

  /** How many before index i are asked for. */
  function AskedBefore(since: Since, length: nat, i: nat): nat
  {
    if i == 0 then 0 else AskedBefore(since, length, i - 1) + if AskedFor(since, length, i - 1) then 1 else 0
  }

  /** Replayed: asked for, with fewer than a hundred before it that are. */
  predicate Replayed(since: Since, length: nat, i: nat)
  {
    i < length && AskedFor(since, length, i) && AskedBefore(since, length, i) < 100
  }

  lemma {:induction false} AskedBeforeIs(since: Since, length: nat, i: nat)
    requires i <= length
    ensures var first := FirstIndex(since, length); AskedBefore(since, length, i) == if first <= i then i - first else 0
  {
    if i > 0 {
      AskedBeforeIs(since, length, i - 1);
      AskedFromFirst(since, length, i - 1);
    }
  }

  lemma ReplayedRange(since: Since, length: nat, i: nat)
    requires i < length
    ensures var first := FirstIndex(since, length);
            Replayed(since, length, i) <==> first <= i < ReplayEnd(first, length)
  {
    AskedFromFirst(since, length, i);
    AskedBeforeIs(since, length, i);
  }

  function WantedBy(f: Filter): Event -> bool
  {
    (e: Event) => Matches(f, e)
  }

  /** The positions in a stretch of a log at which there is something to send, in order. */
  ghost predicate Picks(wanted: Event -> bool, log: seq<Event>, low: nat, high: nat, at: seq<nat>, events: seq<Event>)
    requires low <= high <= |log|
  {
    && |at| == |events|
    && (forall i, j | 0 <= i < j < |at| :: at[i] < at[j])
    && (forall k | 0 <= k < |at| :: low <= at[k] < high && events[k] == log[at[k]] && wanted(log[at[k]]))
    && forall i: nat | low <= i < high && wanted(log[i]) :: i in at
  }

  lemma MatchingBack(f: Filter, log: seq<Event>, low: nat, high: nat)
    requires low < high <= |log|
    ensures Matching(f, log[low..high])
         == Matching(f, log[low..high - 1]) + if Matches(f, log[high - 1]) then [log[high - 1]] else []
  {
    var stretch := log[low..high];
    assert stretch[..|stretch| - 1] == log[low..high - 1] && stretch[|stretch| - 1] == log[high - 1];
  }

  /** One more position, with something to send or without. */
  lemma PicksNext(wanted: Event -> bool, log: seq<Event>, low: nat, high: nat, at: seq<nat>, events: seq<Event>)
    requires low < high <= |log| && Picks(wanted, log, low, high - 1, at, events) && wanted(log[high - 1])
    ensures Picks(wanted, log, low, high, at + [high - 1], events + [log[high - 1]])
  {
    var last: nat := high - 1;
    var more := at + [last];
    assert more[|at|] == last;
    forall i: nat | low <= i < high && wanted(log[i]) ensures i in more {
      assert i < last ==> i in at;
    }
  }

  lemma PicksPast(wanted: Event -> bool, log: seq<Event>, low: nat, high: nat, at: seq<nat>, events: seq<Event>)
    requires low < high <= |log| && Picks(wanted, log, low, high - 1, at, events) && !wanted(log[high - 1])
    ensures Picks(wanted, log, low, high, at, events)
  {
  }

  lemma {:induction false} MatchingPicks(f: Filter, log: seq<Event>, low: nat, high: nat) returns (at: seq<nat>)
    requires low <= high <= |log|
    ensures Picks(WantedBy(f), log, low, high, at, Matching(f, log[low..high]))
    decreases high
  {
    if low == high {
      at := [];
    } else {
      at := MatchingPicks(f, log, low, high - 1);
      MatchingBack(f, log, low, high);
      var before := Matching(f, log[low..high - 1]);
      if Matches(f, log[high - 1]) {
        PicksNext(WantedBy(f), log, low, high, at, before);
        at := at + [high - 1];
      } else {
        PicksPast(WantedBy(f), log, low, high, at, before);
        assert before + [] == before;
      }
    }
  }

  /** What a subscriber has been sent: exactly the wanted events that were replayed when it joined or came after that,
      each once and in the order of the log. */
  ghost predicate Gets(f: Filter, since: Since, log: seq<Event>, joined: nat, at: seq<nat>, sent: seq<Event>)
    requires joined <= |log|
  {
    && |at| == |sent|
    && (forall i, j | 0 <= i < j < |at| :: at[i] < at[j])
    && (forall k | 0 <= k < |at| :: at[k] < |log| && sent[k] == log[at[k]])
    && forall i: nat | i < |log| :: i in at <==> Wanted(f, log[i]) && (i >= joined || Replayed(since, joined, i))
  }

  /** Two stretches, one behind the other. */
  lemma PicksJoin(f: Filter, log: seq<Event>, low: nat, middle: nat, joined: nat, a: seq<nat>, b: seq<nat>,
                  replay: seq<Event>, live: seq<Event>)
    requires low <= middle <= joined <= |log|
    requires Picks(WantedBy(f), log, low, middle, a, replay) && Picks(WantedBy(f), log, joined, |log|, b, live)
    ensures var at, sent := a + b, replay + live;
            && |at| == |sent| && (forall i, j | 0 <= i < j < |at| :: at[i] < at[j])
            && (forall k | 0 <= k < |at| :: at[k] < |log| && sent[k] == log[at[k]])
  {
  }

  lemma PickedIn(f: Filter, log: seq<Event>, low: nat, high: nat, at: seq<nat>, events: seq<Event>, i: nat)
    requires low <= high <= |log| && Picks(WantedBy(f), log, low, high, at, events) && i < |log|
    ensures i in at <==> low <= i < high && Wanted(f, log[i])
  {
    MatchesWanted(f, log[i]);
  }

  lemma GetsJoined(f: Filter, since: Since, log: seq<Event>, joined: nat, a: seq<nat>, b: seq<nat>,
                   replay: seq<Event>, live: seq<Event>)
    requires joined <= |log|
    requires var first := FirstIndex(since, joined); Picks(WantedBy(f), log, first, ReplayEnd(first, joined), a, replay)
    requires Picks(WantedBy(f), log, joined, |log|, b, live)
    ensures Gets(f, since, log, joined, a + b, replay + live)
  {
    var first := FirstIndex(since, joined);
    PicksJoin(f, log, first, ReplayEnd(first, joined), joined, a, b, replay, live);
    forall i: nat | i < |log|
      ensures i in a + b <==> Wanted(f, log[i]) && (i >= joined || Replayed(since, joined, i))
    {
      PickedIn(f, log, first, ReplayEnd(first, joined), a, replay, i);
      PickedIn(f, log, joined, |log|, b, live, i);
      if i < joined {
        ReplayedRange(since, joined, i);
      }
    }
  }

  lemma SubscriberGets(f: Filter, since: Since, log: seq<Event>, joined: nat) returns (at: seq<nat>)
    requires joined <= |log|
    ensures Gets(f, since, log, joined, at, Sent(f, log, FirstIndex(since, joined), joined))
  {
    var first := FirstIndex(since, joined);
    var a := MatchingPicks(f, log, first, ReplayEnd(first, joined));
    var b := MatchingPicks(f, log, joined, |log|);
    assert log[joined..|log|] == log[joined..];
    GetsJoined(f, since, log, joined, a, b, Matching(f, log[first..ReplayEnd(first, joined)]),
               Matching(f, log[joined..]));
    at := a + b;
  }

  // ---------------------------------------------------------------- live state

  /** One open response: where its subscription started, and what was written to it. */
  class Stream {
    const key: Str
    const filter: Filter
    ghost const first: nat
    ghost const joined: nat
    var sent: seq<Event>
    var closed: bool

    constructor (key: Str, filter: Filter, ghost first: nat, ghost joined: nat)
      ensures this.key == key && this.filter == filter && this.first == first && this.joined == joined
      ensures sent == [] && !closed
    {
      this.key, this.filter, this.first, this.joined := key, filter, first, joined;
      sent, closed := [], false;
    }

    method Send(e: Event)
      modifies this`sent
      ensures sent == old(sent) + [e]
    {
      sent := sent + [e];
    }

    /** The replay loop: writes the matching events in order. */
    method Replay(events: seq<Event>)
      modifies this`sent
      ensures sent == old(sent) + Matching(filter, events)
    {
      for i := 0 to |events|
        invariant sent == old(sent) + Matching(filter, events[..i])
      {
        assert events[..i + 1][..i] == events[..i];
        if Matches(filter, events[i]) {
          Send(events[i]);
        }
      }
      assert events[..|events|] == events;
    }
  }

  /** Open streams of an API key. */
  ghost function OpenStreams(streams: seq<Stream>, key: Str): nat
  {
    if streams == [] then 0
    else OpenStreams(streams[..|streams| - 1], key) + if streams[|streams| - 1].key == key then 1 else 0
  }

  lemma {:induction false} OpenStreamsConcat(a: seq<Stream>, b: seq<Stream>, key: Str)
    ensures OpenStreams(a + b, key) == OpenStreams(a, key) + OpenStreams(b, key)
  {
    if b == [] {
      assert a + b == a;
    } else {
      assert (a + b)[..|a + b| - 1] == a + b[..|b| - 1];
      OpenStreamsConcat(a, b[..|b| - 1], key);
    }
  }

  function ActiveOf(active: map<Str, nat>, key: Str): nat
  {
    if key in active then active[key] else 0
  }

  /** Every key's count is the number of its open streams, and keys without any are dropped. */
  ghost predicate SlotsAgree(active: map<Str, nat>, streams: seq<Stream>)
  {
    (forall k :: ActiveOf(active, k) == OpenStreams(streams, k)) && (forall k | k in active :: active[k] > 0)
  }

  lemma SlotClaimed(active: map<Str, nat>, streams: seq<Stream>, s: Stream)
    requires SlotsAgree(active, streams)
    ensures SlotsAgree(active[s.key := ActiveOf(active, s.key) + 1], streams + [s])
  {
    forall k ensures OpenStreams(streams + [s], k) == OpenStreams(streams, k) + if s.key == k then 1 else 0 {
      assert (streams + [s])[..|streams|] == streams;
    }
  }

  /** The release closure of openEventStream. */
  function Released(active: map<Str, nat>, key: Str): map<Str, nat>
  {
    if ActiveOf(active, key) <= 1 then active - {key} else active[key := active[key] - 1]
  }

  lemma {:induction false} OpenStreamsRemoved(streams: seq<Stream>, i: nat, k: Str)
    requires i < |streams|
    ensures OpenStreams(streams, k) == OpenStreams(streams[..i] + streams[i + 1..], k)
            + if streams[i].key == k then 1 else 0
  {
    assert streams == streams[..i] + ([streams[i]] + streams[i + 1..]);
    OpenStreamsConcat(streams[..i], [streams[i]] + streams[i + 1..], k);
    OpenStreamsConcat([streams[i]], streams[i + 1..], k);
    OpenStreamsConcat(streams[..i], streams[i + 1..], k);
    assert [streams[i]][..0] == [];
  }

  lemma SlotReleased(active: map<Str, nat>, streams: seq<Stream>, i: nat)
    requires i < |streams| && SlotsAgree(active, streams)
    ensures SlotsAgree(Released(active, streams[i].key), streams[..i] + streams[i + 1..])
  {
    forall k ensures ActiveOf(Released(active, streams[i].key), k) == OpenStreams(streams[..i] + streams[i + 1..], k) {
      OpenStreamsRemoved(streams, i, k);
    }
  }

  class EventRail {
    var log: seq<Event>
    var streams: seq<Stream>
    var active: map<Str, nat>
    const maxStreamsPerKey: int

    /** Every open stream has been sent what Sent says, and the slots agree with the open streams. */
    ghost predicate Valid()
      reads this, streams
    {
      && (forall i, j | 0 <= i < j < |streams| :: streams[i] != streams[j])
      && (forall i | 0 <= i < |streams| :: Served(streams[i]))
      && SlotsAgree(active, streams)
    }

    ghost predicate Served(s: Stream)
      reads this`log, s
    {
      !s.closed && s.first <= s.joined <= |log| && s.sent == Sent(s.filter, log, s.first, s.joined)
    }

    constructor (maxStreamsPerKey: int)
      ensures Valid() && log == [] && streams == [] && this.maxStreamsPerKey == maxStreamsPerKey
    {
      this.maxStreamsPerKey := maxStreamsPerKey;
      log, streams, active := [], [], map[];
    }

    /** Inserts one event and writes it to every stream whose filter it matches. */
    method Append(e: Event)
      requires Valid()
      modifies this`log, streams
      ensures Valid() && log == old(log) + [e]
    {
      log := log + [e];
      for i := 0 to |streams|
        invariant log == old(log) + [e]
        invariant forall j | 0 <= j < i :: Served(streams[j])
        invariant forall j | i <= j < |streams| :: streams[j].sent == old(streams[j].sent) && !streams[j].closed
      {
        assert old(Served(streams[i]));
        Write(streams[i], e, old(log));
      }
    }

    /** Writes a new event to one stream if its filter matches. */
    method Write(s: Stream, e: Event, ghost before: seq<Event>)
      requires log == before + [e] && !s.closed
      requires s.first <= s.joined <= |before| && s.sent == Sent(s.filter, before, s.first, s.joined)
      modifies s`sent
      ensures Served(s)
    {
      SentExtends(s.filter, before, s.first, s.joined, e);
      if Matches(s.filter, e) {
        s.Send(e);
      }
    }

    /** emitEvent: the event, then its alias event when its type has one. */
    method EmitEvent(e: Event, aliasPayload: Json)
      requires Valid()
      modifies this`log, streams
      ensures Valid()
      ensures var alias := AliasOf(e, aliasPayload); log == old(log) + [e] + if alias.Some? then [alias.value] else []
    {
      Append(e);
      var alias := AliasOf(e, aliasPayload);
      if alias.Some? {
        Append(alias.value);
      }
    }

    /** startEventStream: claims a slot of the key, replays, and goes live, in one synchronous step.
        None is the rate-limit error. */
    method StartEventStream(key: Str, filter: Filter, since: Since) returns (r: Option<Stream>)
      requires Valid()
      modifies this`streams, this`active
      ensures Valid() && log == old(log)
      ensures r.None? <==> old(OpenStreams(streams, key)) >= maxStreamsPerKey
      ensures r.None? ==> streams == old(streams) && active == old(active)
      ensures r.Some? ==> fresh(r.value) && streams == old(streams) + [r.value]
      ensures r.Some? ==> r.value.key == key && r.value.filter == filter
      ensures r.Some? ==> r.value.first == FirstIndex(since, |log|) && r.value.joined == |log|
      ensures r.Some? ==> r.value.sent == Matching(filter, GetEvents(log, since))
    {
      var count := ActiveOf(active, key);
      assert count == OpenStreams(streams, key);
      if count >= maxStreamsPerKey {
        return None;
      }
      var s := new Stream(key, filter, FirstIndex(since, |log|), |log|);
      s.Replay(GetEvents(log, since));
      assert log[|log|..] == [];
      Join(s);
      r := Some(s);
    }

    /** Counts a stream in and adds it to the live ones. */
    method Join(s: Stream)
      requires Valid() && Served(s) && s !in streams
      modifies this`streams, this`active
      ensures Valid() && streams == old(streams) + [s]
    {
      SlotClaimed(active, streams, s);
      active := active[s.key := ActiveOf(active, s.key) + 1];
      streams := streams + [s];
    }

    /** The once-only finalizer behind the close, error and aborted callbacks. */
    method FinalizeStream(s: Stream)
      requires Valid() && (s.closed || s in streams)
      modifies this`streams, this`active, s`closed
      ensures Valid() && s.closed && log == old(log)
      ensures old(s.closed) ==> streams == old(streams) && active == old(active)
      ensures !old(s.closed) ==>
                exists i | 0 <= i < |old(streams)| ::
                  old(streams)[i] == s && streams == old(streams)[..i] + old(streams)[i + 1..]
    {
      if s.closed {
        return;
      }
      var i := Position(s);
      SlotReleased(active, streams, i);
      s.closed := true;
      active := Released(active, s.key);
      streams := streams[..i] + streams[i + 1..];
      assert forall j | 0 <= j < |streams| :: streams[j] == old(streams)[if j < i then j else j + 1];
    }

    method Position(s: Stream) returns (i: nat)
      requires s in streams
      ensures i < |streams| && streams[i] == s
    {
      i := 0;
      while streams[i] != s
        invariant 0 <= i < |streams| && s in streams[i..]
        decreases |streams| - i
      {
        i := i + 1;
      }
    }
  }
}
