/**
 * The handler as the program runs it: an object holding the injected id
 * function and the DynamoDB table, whose `ProcessTts` takes the steps of
 * `process_tts` one by one and is proved to do what `Tts.Process` says.
 */
module Service {
  import opened Wrappers
  import opened Tts

  class Handler {
    /** `generate_unique_id`, supplied at construction. */
    const uniqueId: Value -> Id
    /** The table `ttsTable_compass`. */
    var table: Table
    /** Every collaborator call made so far, in order. */
    ghost var calls: seq<Call>

    constructor (uniqueId: Value -> Id, table: Table)
      ensures this.uniqueId == uniqueId && this.table == table && calls == []
    {
      this.uniqueId := uniqueId;
      this.table := table;
      calls := [];
    }

    /** `get_from_dynamodb`: the stored item or None; `fault` is the exception `get_item` raises. */
    method GetFromDynamodb(id: Id, fault: Option<string>) returns (item: Result<Option<Record>, string>)
      ensures fault.Some? ==> item == Failure(fault.value)
      ensures fault.None? ==> item.Success? && (item.value.Some? <==> id in table)
      ensures fault.None? && id in table ==> item.value.value == table[id]
    {
      if fault.Some? {
        return Failure(fault.value);
      }
      item := Success(if id in table then Some(table[id]) else None);
    }

    /** `save_to_dynamodb`: put (overwrite) the item for `id`, stamped `now`, unless `put_item` raises. */
    method SaveToDynamodb(phrase: Value, id: Id, url: string, now: string, fault: Option<string>)
      returns (error: Option<string>)
      modifies this`table
      ensures error == fault
      ensures table == if fault.None? then old(table)[id := Record(id, phrase, url, now)] else old(table)
      ensures KeyedById(old(table)) ==> KeyedById(table)
    {
      error := fault;
      if fault.None? {
        table := table[id := Record(id, phrase, url, now)];
      }
    }

    /** `process_tts`: validate, derive the id, look it up, and on a miss synthesize and then save. */
    method ProcessTts(event: Event, env: Env) returns (response: Response)
      modifies this`table, this`calls
      ensures var o := Process(uniqueId, old(table), event, env);
              response == o.response && table == o.table && calls == old(calls) + o.calls
    {
      var body := if event.body.None? then Decoded(Object(map[])) else event.body.value;
      if body.Malformed? {
        return ServerError(BadJson(body.reason));
      }
      var json := body.json;
      if !json.Object? {
        return ServerError(NoGetMethod(json));
      }
      var phrase := if "phrase" in json.fields then json.fields["phrase"] else Null;
      if !Truthy(phrase) {
        return BadRequest();
      }

      calls := calls + [GenerateId(phrase)];
      if env.idFault.Some? {
        return ServerError(IdFailed(env.idFault.value));
      }
      var id := uniqueId(phrase);

      calls := calls + [GetItem(id)];
      var existing := GetFromDynamodb(id, env.lookupFault);
      if existing.Failure? {
        return ServerError(LookupFailed(existing.error));
      }
      if existing.value.Some? {
        var item := existing.value.value;
        return Response(200, Audio(item.receivedPhrase, item.urlToAudio, item.createdAudio, id));
      }

      calls := calls + [Synthesize(phrase, id)];
      var audio := env.synthesis;
      if audio.Failure? {
        return ServerError(SynthesisFailed(audio.error));
      }
      var url := audio.value;

      calls := calls + [PutItem(phrase, id, url)];
      var error := SaveToDynamodb(phrase, id, url, env.saveClock, env.saveFault);
      if error.Some? {
        return ServerError(SaveFailed(error.value));
      }
      response := Response(200, Audio(phrase, url, env.responseClock, id));
    }
  }
}
