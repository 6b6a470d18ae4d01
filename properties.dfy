/**
 * What `process_tts` promises, stated over `Tts.Process` for one request and
 * over `Tts.Replay` for requests handled one after another.
 */
module TtsProperties {
  import opened Wrappers
  import opened Tts

  /** An event whose body decodes to `fields`. */
  function EventWith(fields: map<string, Value>): Event {
    Event(Some(Decoded(Object(fields))))
  }

  // ----- validation -----

  /** No phrase exactly when the body is absent, or the 'phrase' key is absent or falsy. */
  lemma NoPhraseWhenAbsentOrFalsy(event: Event)
    ensures ReadPhrase(event) == NoPhrase <==>
              || event.body.None?
              || (&& event.body.value.Decoded?
                  && event.body.value.json.Object?
                  && var fields := event.body.value.json.fields;
                     "phrase" !in fields || !Truthy(fields["phrase"]))
  {
  }

  /** A string phrase passes exactly when it is non-empty; whitespace is not trimmed. */
  lemma StringPhraseAcceptedIffNonEmpty(s: string)
    ensures ReadPhrase(EventWith(map["phrase" := Str(s)])) == (if s == [] then NoPhrase else Phrase(Str(s)))
    ensures ReadPhrase(EventWith(map["phrase" := Str("   ")])) == Phrase(Str("   "))
  {
  }

  /** Without a phrase the answer is 400 and nothing is called or written. */
  lemma MissingPhraseTouchesNothing(uniqueId: Value -> Id, table: Table, event: Event, env: Env)
    requires ReadPhrase(event) == NoPhrase
    ensures var o := Process(uniqueId, table, event, env);
            && o.response == Response(400, MissingPhrase("Frase não fornecida"))
            && o.table == table
            && o.calls == []
  {
  }

  /** A body that does not decode, or is not a JSON object, is a 500 and nothing is called. */
  lemma UnreadableBodyIsServerError(uniqueId: Value -> Id, table: Table, event: Event, env: Env)
    requires event.body.Some?
    requires event.body.value.Malformed? || !event.body.value.json.Object?
    ensures var o := Process(uniqueId, table, event, env);
            && o.response.statusCode == 500
            && o.response.body.Internal?
            && o.response.body.message == "Internal Server Error"
            && o.table == table
            && o.calls == []
  {
  }

  // ----- the cache branches -----

  /** A raising `generate_unique_id` is a 500: no lookup, synthesis or write follows. */
  lemma IdFailureStopsBeforeLookup(uniqueId: Value -> Id, table: Table, event: Event, env: Env, phrase: Value)
    requires ReadPhrase(event) == Phrase(phrase)
    requires env.idFault.Some?
    ensures var o := Process(uniqueId, table, event, env);
            && o.response == ServerError(IdFailed(env.idFault.value))
            && o.table == table
            && o.calls == [GenerateId(phrase)]
  {
  }

  /** A failing lookup is a 500, not a miss: nothing is synthesized or written. */
  lemma LookupFailureIsNotAMiss(uniqueId: Value -> Id, table: Table, event: Event, env: Env, phrase: Value)
    requires ReadPhrase(event) == Phrase(phrase)
    requires env.idFault.None?
    requires env.lookupFault.Some?
    ensures var o := Process(uniqueId, table, event, env);
            && o.response == ServerError(LookupFailed(env.lookupFault.value))
            && o.table == table
            && o.calls == [GenerateId(phrase), GetItem(uniqueId(phrase))]
  {
  }

  /**
   * On a hit the stored record is echoed verbatim under the generated id, even
   * if it was stored for another phrase with the same id; nothing is
   * synthesized or written.
   */
  lemma HitEchoesStoredRecord(uniqueId: Value -> Id, table: Table, event: Event, env: Env, phrase: Value)
    requires ReadPhrase(event) == Phrase(phrase)
    requires env.idFault.None?
    requires env.lookupFault.None?
    requires uniqueId(phrase) in table
    ensures var o := Process(uniqueId, table, event, env);
            var id := uniqueId(phrase);
            var item := table[id];
            && o.response == Response(200, Audio(item.receivedPhrase, item.urlToAudio, item.createdAudio, id))
            && o.table == table
            && o.calls == [GenerateId(phrase), GetItem(id)]
  {
  }

  /**
   * On a miss synthesis runs once with (phrase, id) and the save with (phrase,
   * id, url) follows it; the response reports the input phrase, the url and
   * the id, and only a save that does not raise adds the record.
   */
  lemma MissSynthesizesThenSaves(uniqueId: Value -> Id, table: Table, event: Event, env: Env, phrase: Value, url: string)
    requires ReadPhrase(event) == Phrase(phrase)
    requires env.idFault.None?
    requires env.lookupFault.None?
    requires uniqueId(phrase) !in table
    requires env.synthesis == Success(url)
    ensures var o := Process(uniqueId, table, event, env);
            var id := uniqueId(phrase);
            && o.calls == [GenerateId(phrase), GetItem(id), Synthesize(phrase, id), PutItem(phrase, id, url)]
            && (env.saveFault.None? ==>
                  && o.response == Response(200, Audio(phrase, url, env.responseClock, id))
                  && o.table == table[id := Record(id, phrase, url, env.saveClock)])
            && (env.saveFault.Some? ==>
                  && o.response == ServerError(SaveFailed(env.saveFault.value))
                  && o.table == table)
  {
  }

  /** A synthesis that raises is a 500; the save is never reached and the table is as it was. */
  lemma SynthesisFailureKeepsTable(uniqueId: Value -> Id, table: Table, event: Event, env: Env, phrase: Value)
    requires ReadPhrase(event) == Phrase(phrase)
    requires env.idFault.None?
    requires env.lookupFault.None?
    requires uniqueId(phrase) !in table
    requires env.synthesis.Failure?
    ensures var o := Process(uniqueId, table, event, env);
            var id := uniqueId(phrase);
            && o.response == ServerError(SynthesisFailed(env.synthesis.error))
            && o.table == table
            && id !in o.table
            && o.calls == [GenerateId(phrase), GetItem(id), Synthesize(phrase, id)]
  {
  }

  /** After a 200 the table holds a record for the phrase's id with the url that was reported. */
  lemma SuccessLeavesRecord(uniqueId: Value -> Id, table: Table, event: Event, env: Env, phrase: Value)
    requires ReadPhrase(event) == Phrase(phrase)
    requires Process(uniqueId, table, event, env).response.statusCode == 200
    ensures var o := Process(uniqueId, table, event, env);
            var id := uniqueId(phrase);
            && id in o.table
            && o.response.body.uniqueId == id
            && o.response.body.urlToAudio == o.table[id].urlToAudio
  {
  }

  /**
   * Two calls in a row with the same phrase, the first a 200: the second
   * (unless its id generation or lookup raises) reports the same id and url, and calls no
   * synthesis and writes nothing.
   */
  lemma SecondCallServedFromCache(uniqueId: Value -> Id, table: Table, phrase: Value,
                                  first: Event, env1: Env, second: Event, env2: Env)
    requires ReadPhrase(first) == Phrase(phrase) && ReadPhrase(second) == Phrase(phrase)
    requires Process(uniqueId, table, first, env1).response.statusCode == 200
    requires env2.idFault.None? && env2.lookupFault.None?
    ensures var o1 := Process(uniqueId, table, first, env1);
            var o2 := Process(uniqueId, o1.table, second, env2);
            && o2.response.statusCode == 200
            && o2.response.body.uniqueId == o1.response.body.uniqueId
            && o2.response.body.urlToAudio == o1.response.body.urlToAudio
            && o2.calls == [GenerateId(phrase), GetItem(uniqueId(phrase))]
            && o2.table == o1.table
  {
    SuccessLeavesRecord(uniqueId, table, first, env1, phrase);
  }

  // ----- sequential runs -----

  /** Over a whole run, a record once stored is never changed or removed. */
  lemma {:induction false} ReplayKeepsRecords(uniqueId: Value -> Id, table: Table, requests: seq<Request>)
    ensures var r := Replay(uniqueId, table, requests);
            forall k :: k in table ==> k in r.table && r.table[k] == table[k]
    decreases |requests|
  {
    if requests != [] {
      var o := Process(uniqueId, table, requests[0].event, requests[0].env);
      ReplayKeepsRecords(uniqueId, o.table, requests[1..]);
    }
  }

  /**
   * Over a whole run, each id is written at most once and never when it was
   * already stored, and the final table is the first one plus exactly those ids.
   */
  lemma {:induction false} ReplayWritesEachIdOnce(uniqueId: Value -> Id, table: Table, requests: seq<Request>)
    ensures var r := Replay(uniqueId, table, requests);
            && (forall i, j :: 0 <= i < j < |r.written| ==> r.written[i] != r.written[j])
            && (forall i :: 0 <= i < |r.written| ==> r.written[i] !in table)
            && (forall k :: k in r.table <==> k in table || k in r.written)
    decreases |requests|
  {
    if requests != [] {
      var o := Process(uniqueId, table, requests[0].event, requests[0].env);
      ReplayWritesEachIdOnce(uniqueId, o.table, requests[1..]);
    }
  }

  /** Once an id is stored, no later request of the run synthesizes or writes for it. */
  lemma {:induction false} CachedNeverResynthesized(uniqueId: Value -> Id, table: Table, requests: seq<Request>, id: Id)
    requires id in table
    ensures NeverSynthesized(Replay(uniqueId, table, requests).calls, id)
    ensures NeverWritten(Replay(uniqueId, table, requests).calls, id)
    decreases |requests|
  {
    if requests != [] {
      var o := Process(uniqueId, table, requests[0].event, requests[0].env);
      CachedNeverResynthesized(uniqueId, o.table, requests[1..], id);
    }
  }

  /**
   * Once an id is stored, every request of the run whose phrase maps to it and
   * whose id generation and lookup do not raise gets back that record, verbatim.
   */
  lemma {:induction false} CachedServedVerbatim(uniqueId: Value -> Id, table: Table, requests: seq<Request>, id: Id)
    requires id in table
    ensures var r := Replay(uniqueId, table, requests);
            forall i :: 0 <= i < |requests| && requests[i].env.idFault.None? && requests[i].env.lookupFault.None? &&
                        ReadPhrase(requests[i].event).Phrase? && uniqueId(ReadPhrase(requests[i].event).value) == id ==>
                          r.responses[i] == Response(200, Audio(table[id].receivedPhrase, table[id].urlToAudio, table[id].createdAudio, id))
    decreases |requests|
  {
    if requests != [] {
      var o := Process(uniqueId, table, requests[0].event, requests[0].env);
      CachedServedVerbatim(uniqueId, o.table, requests[1..], id);
      var r := Replay(uniqueId, table, requests);
      var rest := Replay(uniqueId, o.table, requests[1..]);
      forall i | 1 <= i < |requests|
        ensures r.responses[i] == rest.responses[i - 1]
      {
      }
    }
  }

  /**
   * Cache idempotence: after a first request for a phrase succeeds, every later
   * request of the run for the same phrase whose id generation and lookup do not raise is a 200
   * with the same id and url, and none of them synthesizes audio for that id.
   */
  lemma RunAfterSuccessReusesAudio(uniqueId: Value -> Id, table: Table, requests: seq<Request>, phrase: Value)
    requires |requests| > 0 && ReadPhrase(requests[0].event) == Phrase(phrase)
    requires Replay(uniqueId, table, requests).responses[0].statusCode == 200
    ensures var r := Replay(uniqueId, table, requests);
            var o := Process(uniqueId, table, requests[0].event, requests[0].env);
            && r.responses[0].body.Audio?
            && NeverSynthesized(Replay(uniqueId, o.table, requests[1..]).calls, uniqueId(phrase))
            && forall i :: 0 < i < |requests| && requests[i].env.idFault.None? && requests[i].env.lookupFault.None? &&
                           ReadPhrase(requests[i].event) == Phrase(phrase) ==>
                             && r.responses[i].statusCode == 200
                             && r.responses[i].body.Audio?
                             && r.responses[i].body.uniqueId == r.responses[0].body.uniqueId
                             && r.responses[i].body.urlToAudio == r.responses[0].body.urlToAudio
  {
    var o := Process(uniqueId, table, requests[0].event, requests[0].env);
    var id := uniqueId(phrase);
    SuccessLeavesRecord(uniqueId, table, requests[0].event, requests[0].env, phrase);
    CachedNeverResynthesized(uniqueId, o.table, requests[1..], id);
    CachedServedVerbatim(uniqueId, o.table, requests[1..], id);
    var r := Replay(uniqueId, table, requests);
    var rest := Replay(uniqueId, o.table, requests[1..]);
    forall i | 1 <= i < |requests|
      ensures r.responses[i] == rest.responses[i - 1]
    {
    }
  }
}
