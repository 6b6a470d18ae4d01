/**
 * The text-to-speech request handler `process_tts` (teste/handler.py) as a
 * function of the cache table, the incoming event and what the collaborators
 * (DynamoDB, the Polly-and-S3 synthesis step, the clock) do on this request.
 * `Process` is the reference definition the imperative handler in module
 * Service is proved against; `Replay` runs a sequence of requests through it
 * one after another.
 */
module Tts {
  import opened Wrappers

  /** A JSON value as `json.loads` produces it; numbers are kept as reals. */
  datatype Value =
    | Null
    | Bool(b: bool)
    | Number(n: real)
    | Str(s: string)
    | Array(items: seq<Value>)
    | Object(fields: map<string, Value>)

  /** Python truthiness of a decoded value: the test `not phrase`. */
  predicate Truthy(v: Value)
    // the falsy values are exactly null, false, zero and the empty string, array and object
    ensures !Truthy(v) <==>
              v == Null || v == Bool(false) || v == Number(0.0) || v == Str([]) || v == Array([]) || v == Object(map[])
  {
    match v
    case Null => false
    case Bool(b) => b
    case Number(n) => n != 0.0
    case Str(s) => s != []
    case Array(items) => items != []
    case Object(fields) => fields != map[]
  }

  /** What `generate_unique_id` returns: the table's partition key. */
  type Id = string

  /** An item of the table, with the four attributes `save_to_dynamodb` writes. */
  datatype Record = Record(uniqueId: Id, receivedPhrase: Value, urlToAudio: string, createdAudio: string)

  /** The DynamoDB table, keyed by `unique_id`. */
  type Table = map<Id, Record>

  /** Every item sits under its own `unique_id`, as DynamoDB stores items by partition key. */
  predicate KeyedById(table: Table) {
    forall k :: k in table ==> table[k].uniqueId == k
  }

  /** The event's body after `json.loads`; Malformed stands for any exception that call raises. */
  datatype Body = Malformed(reason: string) | Decoded(json: Value)

  /** The Lambda event; `body` is None when the event has no 'body' key. */
  datatype Event = Event(body: Option<Body>)

  /**
   * What the outside world does on one request: whether `generate_unique_id`
   * raises, whether `get_item` raises,
   * what the synthesis step returns (the audio URL) or raises, whether
   * `put_item` raises, and the two clock readings, already formatted.
   */
  datatype Env = Env(
    idFault: Option<string>,
    lookupFault: Option<string>,
    synthesis: Result<string, string>,
    saveFault: Option<string>,
    saveClock: string,
    responseClock: string)

  /** A call the handler makes to a collaborator, in the order it makes them. */
  datatype Call =
    | GenerateId(phrase: Value)
    | GetItem(id: Id)
    | Synthesize(phrase: Value, id: Id)
    | PutItem(phrase: Value, id: Id, url: string)

  /** The exception the catch-all turns into a 500. */
  datatype Error =
    | BadJson(reason: string)
    | NoGetMethod(body: Value)
    | IdFailed(reason: string)
    | LookupFailed(reason: string)
    | SynthesisFailed(reason: string)
    | SaveFailed(reason: string)

  datatype ResponseBody =
    | MissingPhrase(error: string)
    | Audio(receivedPhrase: Value, urlToAudio: string, createdAudio: string, uniqueId: Id)
    | Internal(message: string, cause: Error)

  datatype Response = Response(statusCode: int, body: ResponseBody)

  const MissingPhraseMessage: string := "Frase não fornecida"
  const InternalErrorMessage: string := "Internal Server Error"

  function BadRequest(): Response {
    Response(400, MissingPhrase(MissingPhraseMessage))
  }

  function ServerError(e: Error): Response {
    Response(500, Internal(InternalErrorMessage, e))
  }

  /** How validation ends: a phrase to work on, no phrase (400), or an exception (500). */
  datatype PhraseResult = Phrase(value: Value) | NoPhrase | Raised(error: Error)

  /**
   * Read the phrase out of the event: a missing body counts as `{}`, the body
   * must decode and be a JSON object (anything else has no `.get`), and an
   * absent or falsy 'phrase' is no phrase. Nothing is trimmed.
   */
  function ReadPhrase(event: Event): (r: PhraseResult)
    ensures event.body.None? ==> r == NoPhrase
    ensures r.Raised? <==>
              event.body.Some? && (event.body.value.Malformed? || !event.body.value.json.Object?)
    // an accepted phrase is the truthy value stored under 'phrase', as it is
    ensures r.Phrase? ==>
              && Truthy(r.value)
              && event.body.Some? && event.body.value.Decoded? && event.body.value.json.Object?
              && "phrase" in event.body.value.json.fields
              && event.body.value.json.fields["phrase"] == r.value
  {
    var body := if event.body.None? then Decoded(Object(map[])) else event.body.value;
    match body
    case Malformed(reason) => Raised(BadJson(reason))
    case Decoded(json) =>
      if !json.Object? then Raised(NoGetMethod(json))
      else
        var phrase := if "phrase" in json.fields then json.fields["phrase"] else Null;
        if Truthy(phrase) then Phrase(phrase) else NoPhrase
  }

  /** The response, the table afterwards and the collaborator calls of one request. */
  datatype Outcome = Outcome(response: Response, table: Table, calls: seq<Call>)

  /** One run of `process_tts` against `table`, with `uniqueId` as `generate_unique_id`. */
  function Process(uniqueId: Value -> Id, table: Table, event: Event, env: Env): (o: Outcome)
    ensures o.response.statusCode in {200, 400, 500}
    ensures o.response.statusCode == 200 <==> o.response.body.Audio?
    // a stored record is never overwritten or removed
    ensures forall k :: k in table ==> k in o.table && o.table[k] == table[k]
    // the table changes only by one new record for a fresh id, on a 200 that reports it
    ensures o.table == table ||
            (var b := o.response.body;
             && o.response.statusCode == 200
             && b.Audio?
             && b.uniqueId !in table
             && o.table == table[b.uniqueId := Record(b.uniqueId, b.receivedPhrase, b.urlToAudio, env.saveClock)])
    // the one write keeps every item under its own id
    ensures KeyedById(table) ==> KeyedById(o.table)
    // synthesis runs only on a confirmed miss
    ensures forall i :: 0 <= i < |o.calls| && o.calls[i].Synthesize? ==> o.calls[i].id !in table
    // a record is written only right after a synthesis of the same phrase and id that succeeded
    ensures forall i :: 0 <= i < |o.calls| && o.calls[i].PutItem? ==>
              && 0 < i
              && o.calls[i - 1] == Synthesize(o.calls[i].phrase, o.calls[i].id)
              && env.synthesis == Success(o.calls[i].url)
  {
    match ReadPhrase(event)
    case Raised(e) => Outcome(ServerError(e), table, [])
    case NoPhrase => Outcome(BadRequest(), table, [])
    case Phrase(phrase) =>
      if env.idFault.Some? then
        Outcome(ServerError(IdFailed(env.idFault.value)), table, [GenerateId(phrase)])
      else
        var id := uniqueId(phrase);
        var looked := [GenerateId(phrase), GetItem(id)];
        if env.lookupFault.Some? then
          Outcome(ServerError(LookupFailed(env.lookupFault.value)), table, looked)
        else if id in table then
          var item := table[id];
          Outcome(Response(200, Audio(item.receivedPhrase, item.urlToAudio, item.createdAudio, id)), table, looked)
        else
          var synthesized := looked + [Synthesize(phrase, id)];
          match env.synthesis
          case Failure(reason) => Outcome(ServerError(SynthesisFailed(reason)), table, synthesized)
          case Success(url) =>
            var saved := synthesized + [PutItem(phrase, id, url)];
            if env.saveFault.Some? then
              Outcome(ServerError(SaveFailed(env.saveFault.value)), table, saved)
            else
              Outcome(Response(200, Audio(phrase, url, env.responseClock, id)),
                      table[id := Record(id, phrase, url, env.saveClock)], saved)
  }

  /** One request of a sequential run: the event and what the collaborators do on it. */
  datatype Request = Request(event: Event, env: Env)

  /**
   * A run of requests handled one after another: the responses in order, the
   * final table, every collaborator call, and the ids whose record was written.
   */
  datatype Run = Run(responses: seq<Response>, table: Table, calls: seq<Call>, written: seq<Id>)

  function Replay(uniqueId: Value -> Id, table: Table, requests: seq<Request>): (r: Run)
    ensures |r.responses| == |requests|
    ensures table.Keys <= r.table.Keys
    ensures KeyedById(table) ==> KeyedById(r.table)
    decreases |requests|
  {
    if requests == [] then Run([], table, [], [])
    else
      var o := Process(uniqueId, table, requests[0].event, requests[0].env);
      var rest := Replay(uniqueId, o.table, requests[1..]);
      var added := if o.table == table then [] else [o.response.body.uniqueId];
      Run([o.response] + rest.responses, rest.table, o.calls + rest.calls, added + rest.written)
  }

  /** No call in `calls` synthesizes audio for `id`. */
  predicate NeverSynthesized(calls: seq<Call>, id: Id) {
    forall i :: 0 <= i < |calls| ==> !(calls[i].Synthesize? && calls[i].id == id)
  }

  /** No call in `calls` writes a record for `id`. */
  predicate NeverWritten(calls: seq<Call>, id: Id) {
    forall i :: 0 <= i < |calls| ==> !(calls[i].PutItem? && calls[i].id == id)
  }
}
