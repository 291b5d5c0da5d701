/** The wire format of the event stream: the frames the server writes and the SDK's reassembly of
    them from chunks. */
module SseCodec {
  import opened Utf16
  import opened CanonicalJson
  import opened JsonParser
  import opened CanonicalForm

  // ---------------------------------------------------------------- splitting

  /** The first blank line: the least i with s[i] and s[i + 1] both newlines, or |s|. */
  function FindBlank(s: Str): (i: nat)
    ensures i <= |s|
    ensures i < |s| ==> i + 2 <= |s|
  {
    if |s| < 2 then |s|
    else if s[0] == NEWLINE && s[1] == NEWLINE then 0
    else
      var j := FindBlank(s[1..]);
      j + 1
  }

  /** s.split("\n\n") */
  function SplitFrames(s: Str): (r: seq<Str>)
    ensures r != []
    decreases |s|
  {
    var i := FindBlank(s);
    if i == |s| then [s] else [s[..i]] + SplitFrames(s[i + 2..])
  }

  function Init<T>(s: seq<T>): seq<T>
    requires s != []
  {
    s[..|s| - 1]
  }

  function Last<T>(s: seq<T>): T
    requires s != []
  {
    s[|s| - 1]
  }

  /** Blank lines found in a text are found in every continuation of it. */
  lemma {:induction false} FindBlankStable(x: Str, y: Str)
    ensures FindBlank(x) < |x| ==> FindBlank(x + y) == FindBlank(x)
  {
    if |x| >= 2 && !(x[0] == NEWLINE && x[1] == NEWLINE) {
      FindBlankStable(x[1..], y);
      assert (x + y)[1..] == x[1..] + y;
    }
  }

  lemma Regroup<T>(first: T, tail: seq<T>, more: seq<T>)
    requires tail != []
    ensures Init([first] + tail) + more == [first] + (Init(tail) + more) && Last([first] + tail) == Last(tail)
  {
    assert Init([first] + tail) == [first] + Init(tail);
  }

  lemma SplitFirst(x: Str, first: Str, after: Str)
    requires FindBlank(x) == |first| < |x| && x[..|first|] == first && x[|first| + 2..] == after
    ensures SplitFrames(x) == [first] + SplitFrames(after)
  {
  }

  /** Splitting a longer text yields the same complete frames first. */
  lemma {:induction false} SplitExtends(x: Str, y: Str)
    ensures SplitFrames(x + y) == Init(SplitFrames(x)) + SplitFrames(Last(SplitFrames(x)) + y)
    decreases |x|
  {
    var i := FindBlank(x);
    if i < |x| {
      var first, after := x[..i], x[i + 2..];
      FindBlankStable(x, y);
      SplitExtends(after, y);
      assert (x + y)[..i] == first && (x + y)[i + 2..] == after + y;
      SplitFirst(x, first, after);
      SplitFirst(x + y, first, after + y);
      Regroup(first, SplitFrames(after), SplitFrames(Last(SplitFrames(after)) + y));
    } else {
      assert SplitFrames(x) == [x] && Init([x]) == [] && Last([x]) == x;
      assert [] + SplitFrames(x + y) == SplitFrames(x + y);
    }
  }

  // ---------------------------------------------------------------- the SDK's handling of a frame

  const DATA_PREFIX: Str := [0x64, 0x61, 0x74, 0x61, 0x3A, 0x20]
  const EVENT_PREFIX: Str := [0x65, 0x76, 0x65, 0x6E, 0x74, 0x3A, 0x20]
  const TYPE_KEY: Str := [0x74, 0x79, 0x70, 0x65]
  const EVENT_TYPE_KEY: Str := [0x65, 0x76, 0x65, 0x6E, 0x74, 0x5F, 0x74, 0x79, 0x70, 0x65]
  const OK_KEY: Str := [0x6F, 0x6B]
  const TS_KEY: Str := [0x74, 0x73]

  /** The first line of the text that starts with a prefix. */
  function LineWith(prefix: Str, text: Str): (r: Option<Str>)
    ensures r.Some? ==> prefix <= r.value
    decreases |text|
  {
    var i := IndexOf(NEWLINE, text);
    if prefix <= text[..i] then Some(text[..i])
    else if i == |text| then None
    else LineWith(prefix, text[i + 1..])
  }

  /** The first line of the frame that starts with "data: ". */
  function DataLine(frame: Str): (r: Option<Str>)
    ensures r.Some? ==> |r.value| >= 6
  {
    LineWith(DATA_PREFIX, frame)
  }

  /** A line of the text starts at position i, with the prefix. */
  predicate StartsAt(prefix: Str, text: Str, i: nat)
  {
    i <= |text| && (i == 0 || text[i - 1] == NEWLINE) && prefix <= text[i..]
  }

  /** The line from position i on, up to the next newline or the end. */
  predicate LineFrom(text: Str, i: nat, line: Str)
  {
    && i + |line| <= |text| && text[i..i + |line|] == line && NEWLINE !in line
    && (i + |line| == |text| || text[i + |line|] == NEWLINE)
  }

  /** The line is the first one that starts with the prefix; there is none without a line. */
  predicate IsFirstLine(prefix: Str, text: Str, found: Option<Str>, at: nat)
  {
    match found
    case None => at == |text| + 1
    case Some(line) => StartsAt(prefix, text, at) && LineFrom(text, at, line)
  }

  lemma PrefixInFront(prefix: Str, text: Str)
    requires NEWLINE !in prefix
    ensures prefix <= text[..IndexOf(NEWLINE, text)] <==> StartsAt(prefix, text, 0)
  {
    var i := IndexOf(NEWLINE, text);
    assert text[0..] == text;
    if prefix <= text {
      assert forall k | 0 <= k < |prefix| :: text[k] != NEWLINE;
      assert text[..i][..|prefix|] == text[..|prefix|];
    }
  }

  lemma NoLineInside(prefix: Str, text: Str, j: nat)
    requires 0 < j <= IndexOf(NEWLINE, text)
    ensures !StartsAt(prefix, text, j)
  {
    assert text[j - 1] == text[..IndexOf(NEWLINE, text)][j - 1];
  }

  lemma StartsBehind(prefix: Str, text: Str, n: nat, j: nat)
    requires n < |text| && text[n] == NEWLINE && n < j <= |text|
    ensures StartsAt(prefix, text, j) <==> StartsAt(prefix, text[n + 1..], j - n - 1)
  {
    assert text[n + 1..][j - n - 1..] == text[j..];
  }

  lemma LineBehind(text: Str, n: nat, i: nat, line: Str)
    requires n < |text| && LineFrom(text[n + 1..], i, line)
    ensures LineFrom(text, n + 1 + i, line)
  {
    assert text[n + 1 + i..n + 1 + i + |line|] == text[n + 1..][i..i + |line|];
  }

  /** No line with the prefix starts before a position. */
  ghost predicate NoneBefore(prefix: Str, text: Str, at: nat)
  {
    forall j: nat | j < at :: !StartsAt(prefix, text, j)
  }

  /** The first line does not have the prefix, and what is found behind it is found in the whole text. */
  lemma FirstBehind(prefix: Str, text: Str, n: nat, rest: Str, i: nat, found: Option<Str>)
    requires n < |text| && text[n] == NEWLINE && rest == text[n + 1..] && NoneBefore(prefix, text, n + 1)
    requires IsFirstLine(prefix, rest, found, i) && NoneBefore(prefix, rest, i)
    ensures IsFirstLine(prefix, text, found, n + 1 + i) && NoneBefore(prefix, text, n + 1 + i)
  {
    forall j: nat | n < j < n + 1 + i ensures !StartsAt(prefix, text, j) {
      if j <= |text| { StartsBehind(prefix, text, n, j); }
    }
    if found.Some? {
      StartsBehind(prefix, text, n, n + 1 + i);
      LineBehind(text, n, i, found.value);
    }
  }

  lemma NoLineInFront(prefix: Str, text: Str)
    requires NEWLINE !in prefix && !(prefix <= text[..IndexOf(NEWLINE, text)])
    ensures NoneBefore(prefix, text, IndexOf(NEWLINE, text) + 1)
  {
    PrefixInFront(prefix, text);
    forall j: nat | 0 < j <= IndexOf(NEWLINE, text) ensures !StartsAt(prefix, text, j) {
      NoLineInside(prefix, text, j);
    }
  }

  lemma LineInFront(prefix: Str, text: Str)
    requires NEWLINE !in prefix && prefix <= text[..IndexOf(NEWLINE, text)]
    ensures IsFirstLine(prefix, text, Some(text[..IndexOf(NEWLINE, text)]), 0)
  {
    PrefixInFront(prefix, text);
  }

  lemma LineWithSplit(prefix: Str, text: Str, n: nat)
    requires n == IndexOf(NEWLINE, text)
    ensures LineWith(prefix, text) == if prefix <= text[..n] then Some(text[..n])
                                      else if n == |text| then None else LineWith(prefix, text[n + 1..])
  {
  }

  lemma {:induction false} LineWithIsFirst(prefix: Str, text: Str) returns (at: nat)
    requires NEWLINE !in prefix
    ensures IsFirstLine(prefix, text, LineWith(prefix, text), at) && NoneBefore(prefix, text, at)
    decreases |text|
  {
    var n := IndexOf(NEWLINE, text);
    LineWithSplit(prefix, text, n);
    if prefix <= text[..n] {
      LineInFront(prefix, text);
      at := 0;
    } else {
      NoLineInFront(prefix, text);
      at := n + 1;
      if n < |text| {
        var rest := text[n + 1..];
        var i := LineWithIsFirst(prefix, rest);
        FirstBehind(prefix, text, n, rest, i, LineWith(prefix, rest));
        at := at + i;
      }
    }
  }

  /** The data line is the first line of the frame that starts with the data prefix; without one, no line does. */
  lemma DataLineIsFirst(frame: Str) returns (at: nat)
    ensures IsFirstLine(DATA_PREFIX, frame, DataLine(frame), at) && NoneBefore(DATA_PREFIX, frame, at)
  {
    at := LineWithIsFirst(DATA_PREFIX, frame);
  }

  predicate Truthy(v: Json)
    ensures !Truthy(v) <==> v == Null || v == Bool(false) || v == Num(Zero) || v == Text([])
  {
    match v
    case Null => false
    case Bool(b) => b
    case Num(n) => n != Zero
    case Text(s) => s != []
    case _ => true
  }

  /** payload?.type || payload?.event_type is truthy */
  predicate IsTyped(payload: Json)
  {
    payload.Obj? &&
    ((Has(payload.fields, TYPE_KEY) && Truthy(Get(payload.fields, TYPE_KEY))) ||
     (Has(payload.fields, EVENT_TYPE_KEY) && Truthy(Get(payload.fields, EVENT_TYPE_KEY))))
  }

  /** What the handler gets from one frame: a typed payload, or nothing. */
  function Handle(frame: Str): seq<Json>
  {
    match DataLine(frame)
    case None => []
    case Some(line) =>
      (match ParseJson(line[6..])
       case None => []
       case Some(payload) => if IsTyped(payload) then [payload] else [])
  }

  function HandleAll(frames: seq<Str>): seq<Json>
  {
    if frames == [] then [] else HandleAll(frames[..|frames| - 1]) + Handle(frames[|frames| - 1])
  }

  lemma {:induction false} HandleAllConcat(a: seq<Str>, b: seq<Str>)
    ensures HandleAll(a + b) == HandleAll(a) + HandleAll(b)
  {
    if b == [] {
      assert a + b == a;
    } else {
      assert (a + b)[..|a + b| - 1] == a + b[..|b| - 1];
      HandleAllConcat(a, b[..|b| - 1]);
    }
  }

  function Concat(chunks: seq<Str>): Str
  {
    if chunks == [] then [] else Concat(chunks[..|chunks| - 1]) + chunks[|chunks| - 1]
  }

  /** The payloads and the buffer a text leaves behind. */
  predicate Absorbed(text: Str, handed: seq<Json>, buffer: Str)
  {
    handed == HandleAll(Init(SplitFrames(text))) && buffer == Last(SplitFrames(text))
  }

  lemma AbsorbChunk(text: Str, handed: seq<Json>, buffer: Str, chunk: Str)
    requires Absorbed(text, handed, buffer)
    ensures var frames := SplitFrames(buffer + chunk);
            Absorbed(text + chunk, handed + HandleAll(Init(frames)), Last(frames))
  {
    SplitExtends(text, chunk);
    var before, frames := Init(SplitFrames(text)), SplitFrames(buffer + chunk);
    assert Init(before + frames) == before + Init(frames);
    HandleAllConcat(before, Init(frames));
  }

  /** The loop over the complete frames of one chunk. */
  method HandleFrames(frames: seq<Str>) returns (handed: seq<Json>)
    ensures handed == HandleAll(frames)
  {
    handed := [];
    for j := 0 to |frames|
      invariant handed == HandleAll(frames[..j])
    {
      assert frames[..j + 1][..j] == frames[..j];
      handed := handed + Handle(frames[j]);
    }
    assert frames[..|frames|] == frames;
  }

  /** The subscribe loop: however the text is cut into chunks, the handler gets what the complete
      frames of the whole text hold, and the buffer keeps the unfinished one. */
  method Subscribe(chunks: seq<Str>) returns (handed: seq<Json>, buffer: Str)
    ensures handed == HandleAll(Init(SplitFrames(Concat(chunks))))
    ensures buffer == Last(SplitFrames(Concat(chunks)))
  {
    buffer, handed := [], [];
    for i := 0 to |chunks|
      invariant Absorbed(Concat(chunks[..i]), handed, buffer)
    {
      AbsorbChunk(Concat(chunks[..i]), handed, buffer, chunks[i]);
      ConcatStep(chunks, i);
      var frames := SplitFrames(buffer + chunks[i]);
      buffer := Last(frames);
      var more := HandleFrames(Init(frames));
      handed := handed + more;
    }
    assert chunks[..|chunks|] == chunks;
  }

  lemma ConcatStep(chunks: seq<Str>, i: nat)
    requires i < |chunks|
    ensures Concat(chunks[..i + 1]) == Concat(chunks[..i]) + chunks[i]
  {
    assert chunks[..i + 1][..i] == chunks[..i];
  }

  // ---------------------------------------------------------------- the server's frames

  /** What the server writes: the greeting, heartbeats, and events. */
  datatype Frame = Ready | Heartbeat(ts: Str) | Event(eventType: Str, payload: Json)

  const READY_NAME: Str := [0x72, 0x65, 0x61, 0x64, 0x79]
  const HEARTBEAT_NAME: Str := [0x68, 0x65, 0x61, 0x72, 0x74, 0x62, 0x65, 0x61, 0x74]

  function NameOf(f: Frame): Str
  {
    match f
    case Ready => READY_NAME
    case Heartbeat(_) => HEARTBEAT_NAME
    case Event(eventType, _) => eventType
  }

  function PayloadOf(f: Frame): Json
  {
    match f
    case Ready => Obj([Field(OK_KEY, Bool(true))])
    case Heartbeat(ts) => Obj([Field(TS_KEY, Json.Text(ts))])
    case Event(_, payload) => payload
  }

  /** The frame without its closing blank line. */
  function FrameBody(f: Frame): Str
  {
    (EVENT_PREFIX + NameOf(f)) + [NEWLINE] + (DATA_PREFIX + Stringify(PayloadOf(f)))
  }

  function ServerText(frames: seq<Frame>): Str
  {
    if frames == [] then [] else FrameBody(frames[0]) + ([NEWLINE, NEWLINE] + ServerText(frames[1..]))
  }

  /** Events carry a one-line name and a typed payload, as everything makeCloudEvent builds does. */
  predicate WellNamed(f: Frame)
  {
    NEWLINE !in NameOf(f) && (f.Event? ==> IsTyped(f.payload))
  }

  // JSON text never contains a raw newline.

  lemma {:induction false} EscapeOneLine(s: Str)
    ensures NEWLINE !in Escape(s)
  {
    if s == [] {
    } else if |s| >= 2 && IsLead(s[0]) && IsTrail(s[1]) {
      EscapeOneLine(s[2..]);
    } else {
      EscapeOneLine(s[1..]);
    }
  }

  lemma NumberOneLine(n: Number)
    ensures NEWLINE !in NumberText(n)
  {
    NumberTextShape(n);
  }

  lemma {:induction false} StringifyOneLine(v: Json)
    ensures NEWLINE !in Stringify(v)
    decreases v, 1
  {
    match v
    case Null =>
    case Bool(b) =>
    case Num(n) => NumberOneLine(n);
    case Text(s) => EscapeOneLine(s);
    case Arr(items) => ItemsOneLine(items);
    case Obj(fields) => FieldsOneLine(fields);
  }

  lemma {:induction false} ItemsOneLine(items: seq<Json>)
    ensures NEWLINE !in StringifyItems(items)
    decreases items, 0
  {
    if items != [] {
      StringifyOneLine(items[0]);
      ItemsOneLine(items[1..]);
    }
  }

  lemma {:induction false} FieldsOneLine(fields: seq<Field>)
    ensures NEWLINE !in StringifyFields(fields)
    decreases fields, 0
  {
    if fields != [] {
      EscapeOneLine(fields[0].key);
      StringifyOneLine(fields[0].value);
      FieldsOneLine(fields[1..]);
    }
  }

  // A frame body has one newline, inside it, so its blank line is where it ends.

  lemma {:induction false} FindBlankAfterLine(line: Str, rest: Str)
    requires NEWLINE !in line
    ensures FindBlank(line + rest) == |line| + FindBlank(rest)
  {
    if line == [] {
      assert line + rest == rest;
    } else {
      assert (line + rest)[1..] == line[1..] + rest;
      FindBlankAfterLine(line[1..], rest);
      if |line + rest| < 2 {
        assert |line| == 1 && rest == [];
      }
    }
  }

  lemma FindBlankAfterFrame(first: Str, second: Str, rest: Str)
    requires NEWLINE !in first && NEWLINE !in second && second != []
    ensures FindBlank(first + ([NEWLINE] + (second + ([NEWLINE, NEWLINE] + rest)))) == |first| + 1 + |second|
  {
    var tail := [NEWLINE, NEWLINE] + rest;
    FindBlankAfterLine(second, tail);
    assert ([NEWLINE] + (second + tail))[1..] == second + tail;
    FindBlankAfterLine(first, [NEWLINE] + (second + tail));
  }

  lemma SplitTwoLines(first: Str, second: Str, rest: Str)
    requires NEWLINE !in first && NEWLINE !in second && second != []
    ensures var body := first + [NEWLINE] + second;
            SplitFrames(body + ([NEWLINE, NEWLINE] + rest)) == [body] + SplitFrames(rest)
  {
    var body := first + [NEWLINE] + second;
    var tail := [NEWLINE, NEWLINE] + rest;
    var t := body + tail;
    FindBlankAfterFrame(first, second, rest);
    assert t == first + ([NEWLINE] + (second + tail));
    SplitFirst(t, body, rest);
  }

  lemma SplitFrame(f: Frame, rest: Str)
    requires WellNamed(f)
    ensures SplitFrames(FrameBody(f) + ([NEWLINE, NEWLINE] + rest)) == [FrameBody(f)] + SplitFrames(rest)
  {
    StringifyOneLine(PayloadOf(f));
    SplitTwoLines(EVENT_PREFIX + NameOf(f), DATA_PREFIX + Stringify(PayloadOf(f)), rest);
  }

  /** The data line behind an event line. */
  /** A frame is its event line and its data line. */
  lemma FrameLines(f: Frame)
    requires NEWLINE !in NameOf(f)
    ensures var body := FrameBody(f);
            && LineFrom(body, 0, EVENT_PREFIX + NameOf(f))
            && LineFrom(body, |EVENT_PREFIX + NameOf(f)| + 1, DATA_PREFIX + Stringify(PayloadOf(f)))
            && |body| == |EVENT_PREFIX + NameOf(f)| + 1 + |DATA_PREFIX + Stringify(PayloadOf(f))|
  {
    StringifyOneLine(PayloadOf(f));
  }

  lemma DataLineBehind(name: Str, json: Str)
    requires NEWLINE !in name && NEWLINE !in json
    ensures DataLine(EVENT_PREFIX + name + [NEWLINE] + (DATA_PREFIX + json)) == Some(DATA_PREFIX + json)
  {
    var first, second := EVENT_PREFIX + name, DATA_PREFIX + json;
    var body := first + [NEWLINE] + second;
    IndexOfSeparator(NEWLINE, first, second);
    assert body[..|first|] == first && body[|first| + 1..] == second;
    assert first[0] != DATA_PREFIX[0];
    IndexOfAbsent(NEWLINE, second);
    assert second[..|second|] == second;
    assert DataLine(second) == Some(second);
  }

  lemma HandleFrame(f: Frame)
    requires WellNamed(f)
    ensures Handle(FrameBody(f)) == if f.Event? then [f.payload] else []
  {
    var json := Stringify(PayloadOf(f));
    StringifyOneLine(PayloadOf(f));
    DataLineBehind(NameOf(f), json);
    assert (DATA_PREFIX + json)[6..] == json;
    ColumnRoundTrip(PayloadOf(f));
  }

  /** The payloads of the events among the frames, in order. */
  function Payloads(frames: seq<Frame>): seq<Json>
  {
    if frames == [] then [] else (if frames[0].Event? then [frames[0].payload] else []) + Payloads(frames[1..])
  }

  /** Codec round trip: in whatever chunks the server's text arrives, up to any point inside a later
      frame, the SDK hands over exactly the events of the complete frames, in order, drops the
      greeting and the heartbeats, and buffers the unfinished frame. (Subscribe computes both sides'
      left-hand terms from the chunks alone.) */
  lemma CodecRoundTrip(frames: seq<Frame>, partial: Str, chunks: seq<Str>)
    requires forall i | 0 <= i < |frames| :: WellNamed(frames[i])
    requires FindBlank(partial) == |partial|
    requires Concat(chunks) == ServerText(frames) + partial
    ensures HandleAll(Init(SplitFrames(Concat(chunks)))) == Payloads(frames)
    ensures Last(SplitFrames(Concat(chunks))) == partial
  {
    ServerTextSplits(frames, partial);
  }

  lemma {:induction false} ServerTextSplits(frames: seq<Frame>, partial: Str)
    requires forall i | 0 <= i < |frames| :: WellNamed(frames[i])
    requires FindBlank(partial) == |partial|
    ensures var split := SplitFrames(ServerText(frames) + partial);
            Last(split) == partial && HandleAll(Init(split)) == Payloads(frames)
  {
    if frames == [] {
      assert ServerText(frames) + partial == partial;
      assert Init([partial]) == [];
    } else {
      var rest := ServerText(frames[1..]) + partial;
      var body, tail := FrameBody(frames[0]), SplitFrames(rest);
      assert ServerText(frames) + partial == body + ([NEWLINE, NEWLINE] + rest);
      SplitFrame(frames[0], rest);
      ServerTextSplits(frames[1..], partial);
      assert Init([body] + tail) == [body] + Init(tail);
      HandleAllConcat([body], Init(tail));
      HandleFrame(frames[0]);
      HandleOne(body);
    }
  }

  lemma HandleOne(frame: Str)
    ensures HandleAll([frame]) == Handle(frame)
  {
    assert [frame][..0] == [];
  }
}
