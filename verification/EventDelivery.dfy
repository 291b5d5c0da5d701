/** From the event log to the SDK's handler: what a subscriber is handed at the far end of its stream. */
module EventDelivery {
  import opened Utf16
  import opened CanonicalJson
  import opened EventRail
  import C = SseCodec

  /** Every event of the log has a one-line type and a typed payload, as everything makeCloudEvent builds does. */
  ghost predicate Writable(log: seq<Event>)
  {
    forall i | 0 <= i < |log| :: NEWLINE !in log[i].eventType && C.IsTyped(log[i].payload)
  }

  function PayloadsOf(events: seq<Event>): (r: seq<Json>)
    ensures |r| == |events| && forall i | 0 <= i < |r| :: r[i] == events[i].payload
  {
    seq(|events|, i requires 0 <= i < |events| => events[i].payload)
  }

  /** The frames are those of the events, in order, with greetings and heartbeats anywhere between them. */
  ghost predicate Carries(frames: seq<C.Frame>, events: seq<Event>)
  {
    if frames == [] then events == []
    else if frames[0].Event? then
      events != [] && frames[0] == C.Event(events[0].eventType, events[0].payload) && Carries(frames[1..], events[1..])
    else Carries(frames[1..], events)
  }

  lemma {:induction false} CarriedPayloads(frames: seq<C.Frame>, events: seq<Event>)
    requires Carries(frames, events)
    ensures C.Payloads(frames) == PayloadsOf(events)
  {
    if frames != [] {
      if frames[0].Event? {
        CarriedPayloads(frames[1..], events[1..]);
      } else {
        CarriedPayloads(frames[1..], events);
      }
    }
  }

  lemma FrameWellNamed(frame: C.Frame)
    requires frame.Event? ==> NEWLINE !in frame.eventType && C.IsTyped(frame.payload)
    ensures C.WellNamed(frame)
  {
    assert NEWLINE !in C.READY_NAME && NEWLINE !in C.HEARTBEAT_NAME;
  }

  lemma {:induction false} CarriedWellNamed(frames: seq<C.Frame>, events: seq<Event>)
    requires Carries(frames, events) && Writable(events)
    ensures forall i | 0 <= i < |frames| :: C.WellNamed(frames[i])
  {
    if frames != [] {
      FrameWellNamed(frames[0]);
      if frames[0].Event? {
        CarriedWellNamed(frames[1..], events[1..]);
      } else {
        CarriedWellNamed(frames[1..], events);
      }
    }
  }

  lemma {:induction false} MatchingWritable(f: Filter, events: seq<Event>)
    requires Writable(events)
    ensures Writable(Matching(f, events))
  {
    if events != [] {
      MatchingWritable(f, events[..|events| - 1]);
    }
  }

  lemma SentWritable(f: Filter, log: seq<Event>, first: nat, joined: nat)
    requires Writable(log) && first <= joined <= |log|
    ensures Writable(Sent(f, log, first, joined))
  {
    MatchingWritable(f, log[first..ReplayEnd(first, joined)]);
    MatchingWritable(f, log[joined..]);
  }

  /** What a subscriber missed shows in how much it got. */
  lemma LengthShows(f: Filter, log: seq<Event>, first: nat, joined: nat)
    requires first <= joined <= |log|
    ensures |Sent(f, log, first, joined)| == |Matching(f, log[first..])| ==>
            Sent(f, log, first, joined) == Matching(f, log[first..])
  {
    var end := ReplayEnd(first, joined);
    var replay, missed, live := log[first..end], log[end..joined], log[joined..];
    assert log[first..] == replay + (missed + live);
    MatchingConcat(f, replay, missed + live);
    MatchingConcat(f, missed, live);
    if Matching(f, missed) == [] {
      assert Matching(f, missed) + Matching(f, live) == Matching(f, live);
    }
  }

  /** The payloads a subscriber asked for: those of the matching events from its first one on. */
  function Asked(f: Filter, log: seq<Event>, first: nat): seq<Json>
    requires first <= |log|
  {
    PayloadsOf(Matching(f, log[first..]))
  }

  /** End to end: in whatever chunks the text of a stream arrives, heartbeats among it, the SDK's handler is
      given the payloads the stream was sent; and that is everything the subscriber asked for, once and in
      order, exactly when nothing it asked for lay beyond the replay at the moment it joined. */
  lemma EndToEnd(f: Filter, log: seq<Event>, first: nat, joined: nat, frames: seq<C.Frame>, partial: Str,
                 chunks: seq<Str>)
    requires Writable(log) && first <= joined <= |log| && Carries(frames, Sent(f, log, first, joined))
    requires C.Concat(chunks) == C.ServerText(frames) + partial && C.FindBlank(partial) == |partial|
    ensures var handed := C.HandleAll(C.Init(C.SplitFrames(C.Concat(chunks))));
            && handed == PayloadsOf(Sent(f, log, first, joined))
            && (handed == Asked(f, log, first) <==>
                forall i | ReplayEnd(first, joined) <= i < joined :: !Matches(f, log[i]))
  {
    SentWritable(f, log, first, joined);
    CarriedPayloads(frames, Sent(f, log, first, joined));
    CarriedWellNamed(frames, Sent(f, log, first, joined));
    C.CodecRoundTrip(frames, partial, chunks);
    ExactlyOnce(f, log, first, joined);
    LengthShows(f, log, first, joined);
  }

  /** The subscriber of an open stream, at any moment of a valid rail. */
  method Receive(rail: EventRail, s: Stream, ghost frames: seq<C.Frame>, ghost partial: Str, chunks: seq<Str>)
    returns (handed: seq<Json>)
    requires rail.Valid() && s in rail.streams && Writable(rail.log)
    requires Carries(frames, s.sent) && C.FindBlank(partial) == |partial|
    requires C.Concat(chunks) == C.ServerText(frames) + partial
    ensures s.first <= s.joined <= |rail.log|
    ensures handed == Asked(s.filter, rail.log, s.first)
            <==> forall i | ReplayEnd(s.first, s.joined) <= i < s.joined :: !Matches(s.filter, rail.log[i])
  {
    assert rail.Served(s);
    EndToEnd(s.filter, rail.log, s.first, s.joined, frames, partial, chunks);
    var buffer: Str;
    handed, buffer := C.Subscribe(chunks);
  }

  /** A backlog of more than a hundred matching events leaves a gap: a subscriber that asks for those after
      sequence number 1 does not get the ones between its replay and its joining. */
  lemma BacklogLeavesGap(f: Filter, log: seq<Event>, joined: nat)
    requires 102 <= joined <= |log| && forall i | 0 <= i < |log| :: Matches(f, log[i])
    ensures FirstIndex(Numeric(1.0), joined) == 1
    ensures Sent(f, log, 1, joined) != Matching(f, log[1..])
  {
    ExactlyOnce(f, log, 1, joined);
    assert Matches(f, log[101]);
  }
}
