/** The idempotency table around a handler, over a single call and over whole runs. */
module Idempotency {
  import opened Utf16
  import opened CanonicalJson
  import opened JsonParser
  import opened CanonicalForm

  /** How a handler ends: with a response, or with an error after whatever it already changed. */
  datatype Outcome<S, E> = Returned(state: S, response: Json) | Threw(state: S, error: E)

  type Handler<!S, !E> = S -> Outcome<S, E>

  datatype Row = Row(endpoint: Str, requestHash: Digest, responseBody: Str)

  /** The application's state and the idempotency table beside it. */
  datatype Store<S> = Store(app: S, rows: map<Str, Row>)

  datatype Call<!S, !E> = Call(endpoint: Str, key: Option<Str>, body: Json, handler: Handler<S, E>)

  datatype Reply<E> = Response(body: Json) | Conflict | Failure(error: E)

  /** An absent and an empty key both mean that the call is not idempotent. */
  predicate Keyed<S, E>(call: Call<S, E>)
  {
    call.key.Some? && call.key.value != []
  }

  /** Stored responses come back as JSON text. */
  function StoredResponse(row: Row): Json
  {
    match ParseJson(row.responseBody)
    case Some(v) => v
    case None => Null
  }

  function Step<S, E>(st: Store<S>, call: Call<S, E>): (Store<S>, Reply<E>)
  {
    if Keyed(call) && call.key.value in st.rows then
      var row := st.rows[call.key.value];
      if row.endpoint != call.endpoint || row.requestHash != HashPayload(call.body) then (st, Conflict)
      else (st, Response(StoredResponse(row)))
    else
      match call.handler(st.app)
      case Threw(app, error) => (Store(app, st.rows), Failure(error))
      case Returned(app, response) =>
        var rows :=
          if Keyed(call) then st.rows[call.key.value := Row(call.endpoint, HashPayload(call.body), Stringify(response))]
          else st.rows;
        (Store(app, rows), Response(response))
  }

  /** A call that is not answered from a row runs its handler and hands on its response or error. Whatever the handler
      changed stays, also before an error; a row is added exactly by a keyed call that completes. */
  ghost predicate Runs<S, E>(st: Store<S>, call: Call<S, E>, st': Store<S>, reply: Reply<E>)
  {
    var outcome := call.handler(st.app);
    && st'.app == outcome.state
    && (match reply
        case Response(body) => outcome == Returned(outcome.state, body)
        case Failure(e) => outcome == Threw(outcome.state, e)
        case Conflict => false)
    && (forall k :: k in st'.rows <==> k in st.rows || (reply.Response? && k != [] && call.key == Some(k)))
    && forall k | k in st.rows :: st'.rows[k] == st.rows[k]
  }

  lemma UnknownRuns<S, E>(st: Store<S>, call: Call<S, E>)
    requires call.key.None? || call.key.value == [] || call.key.value !in st.rows
    ensures var (st', reply) := Step(st, call); Runs(st, call, st', reply)
  {
    var (st', reply) := Step(st, call);
    assert reply.Conflict? ==> false;
  }

  /** What the handler keeps, the wrapped call keeps. */
  lemma StepKeeps<S, E>(inv: S -> bool, st: Store<S>, call: Call<S, E>)
    requires inv(st.app) && inv(call.handler(st.app).state)
    ensures inv(Step(st, call).0.app)
  {
  }

  /** The idempotent method of the platform, on the table it updates in place. */
  class IdempotentPlatform<S, E> {
    var app: S
    var rows: map<Str, Row>

    constructor (app: S)
      ensures this.app == app && rows == map[]
    {
      this.app, this.rows := app, map[];
    }

    method Idempotent(call: Call<S, E>) returns (reply: Reply<E>)
      modifies this
      ensures (Store(app, rows), reply) == Step(old(Store(app, rows)), call)
      ensures call.key.None? || call.key.value == [] || call.key.value !in old(rows) ==>
                Runs(old(Store(app, rows)), call, Store(app, rows), reply)
    {
      if call.key == None || call.key.value == [] {
        var outcome := call.handler(app);
        app := outcome.state;
        return if outcome.Returned? then Response(outcome.response) else Failure(outcome.error);
      }
      var key := call.key.value;
      var requestHash := HashPayload(call.body);
      if key in rows {
        var existing := rows[key];
        if existing.endpoint != call.endpoint || existing.requestHash != requestHash {
          return Conflict;
        }
        return Response(StoredResponse(existing));
      }
      var outcome := call.handler(app);
      app := outcome.state;
      if outcome.Threw? {
        return Failure(outcome.error);
      }
      rows := rows[key := Row(call.endpoint, requestHash, Stringify(outcome.response))];
      return Response(outcome.response);
    }
  }

  // ---------------------------------------------------------------- whole runs

  /** The states a run passes through: one more than there are calls. */
  ghost function States<S, E>(st: Store<S>, calls: seq<Call<S, E>>): (r: seq<Store<S>>)
    ensures |r| == |calls| + 1 && r[0] == st
    ensures forall i | 0 <= i < |calls| :: r[i + 1] == Step(r[i], calls[i]).0
    decreases |calls|
  {
    if calls == [] then [st] else [st] + States(Step(st, calls[0]).0, calls[1..])
  }

  ghost function ReplyAt<S, E>(st: Store<S>, calls: seq<Call<S, E>>, i: nat): Reply<E>
    requires i < |calls|
  {
    Step(States(st, calls)[i], calls[i]).1
  }

  /** Call i runs its handler to completion. */
  ghost predicate Completes<S, E>(st: Store<S>, calls: seq<Call<S, E>>, i: nat)
    requires i < |calls|
  {
    var before := States(st, calls)[i];
    !(Keyed(calls[i]) && calls[i].key.value in before.rows) && calls[i].handler(before.app).Returned?
  }

  lemma {:induction false} RowsPersist<S, E>(st: Store<S>, calls: seq<Call<S, E>>, i: nat, j: nat, key: Str)
    requires i <= j <= |calls|
    requires key in States(st, calls)[i].rows
    ensures key in States(st, calls)[j].rows && States(st, calls)[j].rows[key] == States(st, calls)[i].rows[key]
    decreases j
  {
    if i < j {
      RowsPersist(st, calls, i, j - 1, key);
    }
  }

  /** A completed keyed call leaves its row. */
  lemma CompletionRecorded<S, E>(st: Store<S>, calls: seq<Call<S, E>>, i: nat)
    requires i < |calls| && Keyed(calls[i]) && Completes(st, calls, i)
    ensures ReplyAt(st, calls, i).Response?
    ensures var rows := States(st, calls)[i + 1].rows;
            calls[i].key.value in rows &&
            rows[calls[i].key.value]
              == Row(calls[i].endpoint, HashPayload(calls[i].body), Stringify(ReplyAt(st, calls, i).body))
  {
  }

  /** Per key, at most one call of a run completes its handler. */
  lemma CompletesAtMostOnce<S, E>(st: Store<S>, calls: seq<Call<S, E>>, i: nat, j: nat)
    requires i < |calls| && j < |calls| && Keyed(calls[i]) && calls[i].key == calls[j].key
    requires Completes(st, calls, i) && Completes(st, calls, j)
    ensures i == j
  {
    if i < j {
      CompletionRecorded(st, calls, i);
      RowsPersist(st, calls, i + 1, j, calls[i].key.value);
    } else if j < i {
      CompletionRecorded(st, calls, j);
      RowsPersist(st, calls, j + 1, i, calls[j].key.value);
    }
  }

  /** After a call with a key has completed, every later call with that key leaves the state alone;
      it is answered with the first response exactly when it has the same endpoint and a body that
      is equal up to key order, and is otherwise refused. */
  lemma ReplayedOrRefused<S, E>(st: Store<S>, calls: seq<Call<S, E>>, i: nat, j: nat)
    requires i < j < |calls| && Keyed(calls[i]) && calls[i].key == calls[j].key
    requires Completes(st, calls, i)
    requires Proper(calls[i].body) && Proper(calls[j].body)
    ensures States(st, calls)[j + 1] == States(st, calls)[j]
    ensures ReplyAt(st, calls, j) ==
            if calls[i].endpoint == calls[j].endpoint && Same(calls[i].body, calls[j].body) then ReplyAt(st, calls, i)
            else Conflict
  {
    CompletionRecorded(st, calls, i);
    RowsPersist(st, calls, i + 1, j, calls[i].key.value);
    HashPayloadIdentifiesSame(calls[i].body, calls[j].body);
    ColumnRoundTrip(ReplyAt(st, calls, i).body);
  }
}
