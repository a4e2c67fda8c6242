/**
  The web client's request and response caches (uprpc-web/src/stores/proto.ts):
  three maps keyed by method id, holding the stream of pushed request bodies,
  the first response with the stream of all response bodies, and whether a
  streaming call is running. Streams hold the newest body first.
*/
module ProtoStore {
  import opened Wrappers
  import opened Types

  datatype MetadataPair = MetadataPair(key: string, value: string)

  /** The fields of RequestData the store reads. */
  datatype RequestData = RequestData(id: string, methodMode: Mode, body: string)

  /** A response event as the app delivers it. */
  datatype ResponseData = ResponseData(id: string, body: string, metadata: seq<MetadataPair>)

  /** A request cache; its stream may be missing (`streams?` in the source). */
  datatype RequestCache = RequestCache(streams: Option<seq<string>>)

  datatype ResponseCache = ResponseCache(body: string, metadata: seq<MetadataPair>, streams: Option<seq<string>>)

  class Store {
    var requestCaches: map<string, RequestCache>
    var responseCaches: map<string, ResponseCache>
    var runningCaches: map<string, bool>

    /**
      What the store's own updates guarantee: every stream it holds is present
      and non-empty, and a response entry's body is the oldest (last) body of its stream.
    */
    ghost predicate Valid()
      reads this
    {
      && (forall id :: id in requestCaches ==>
            requestCaches[id].streams.Some? && |requestCaches[id].streams.value| >= 1)
      && (forall id :: id in responseCaches ==>
            var streams := responseCaches[id].streams;
            streams.Some? && |streams.value| >= 1 && streams.value[|streams.value| - 1] == responseCaches[id].body)
    }

    constructor ()
      ensures Valid()
      ensures requestCaches == map[] && responseCaches == map[] && runningCaches == map[]
    {
      requestCaches, responseCaches, runningCaches := map[], map[], map[];
    }

    /** The handler of `handleEndStream`: the method's stream no longer runs. */
    method OnEndStream(methodId: string)
      modifies this
      ensures runningCaches == old(runningCaches)[methodId := false]
      ensures requestCaches == old(requestCaches) && responseCaches == old(responseCaches)
      ensures old(Valid()) ==> Valid()
    {
      runningCaches := runningCaches[methodId := false];
    }

    /**
      The handler of `handleResponse`: the first response for an id creates its
      entry; a later one prepends its body to the stream and keeps the entry's
      body and metadata; an entry without a stream is left alone.
    */
    method OnResponse(value: ResponseData)
      modifies this
      ensures value.id !in old(responseCaches) ==>
        responseCaches == old(responseCaches)[value.id := ResponseCache(value.body, value.metadata, Some([value.body]))]
      ensures value.id in old(responseCaches) && old(responseCaches)[value.id].streams.None? ==>
        responseCaches == old(responseCaches)
      ensures value.id in old(responseCaches) && old(responseCaches)[value.id].streams.Some? ==>
        var previous := old(responseCaches)[value.id];
        responseCaches == old(responseCaches)[value.id := previous.(streams := Some([value.body] + previous.streams.value))]
      ensures requestCaches == old(requestCaches) && runningCaches == old(runningCaches)
      ensures old(Valid()) ==> Valid()
      ensures old(Valid()) ==>
        var streams := responseCaches[value.id].streams;
        && streams.Some? && |streams.value| >= 1 && streams.value[0] == value.body
        && streams.value[|streams.value| - 1] == responseCaches[value.id].body
    {
      if value.id !in responseCaches {
        responseCaches := responseCaches[value.id := ResponseCache(value.body, value.metadata, Some([value.body]))];
        return;
      }
      var responseCache := responseCaches[value.id];
      var streams := responseCache.streams;
      if streams.None? {
        return;
      }
      responseCaches := responseCaches[value.id := responseCache.(streams := Some([value.body] + streams.value))];
    }

    /** `removeCache`: the id leaves all three maps; other ids keep their entries. */
    method RemoveCache(methodId: string)
      modifies this
      ensures requestCaches == old(requestCaches) - {methodId}
      ensures responseCaches == old(responseCaches) - {methodId}
      ensures runningCaches == old(runningCaches) - {methodId}
      ensures old(Valid()) ==> Valid()
    {
      requestCaches := requestCaches - {methodId};
      responseCaches := responseCaches - {methodId};
      runningCaches := runningCaches - {methodId};
    }

    /**
      `push`: the first body for an id starts its stream; a later one is
      prepended to the stream, which then grows by one (a missing stream stays missing).
    */
    method Push(requestData: RequestData)
      modifies this
      ensures requestData.id !in old(requestCaches) ==>
        requestCaches == old(requestCaches)[requestData.id := RequestCache(Some([requestData.body]))]
      ensures requestData.id in old(requestCaches) ==>
        var streams := old(requestCaches)[requestData.id].streams;
        requestCaches == old(requestCaches)[requestData.id :=
          RequestCache(if streams.None? then None else Some([requestData.body] + streams.value))]
      ensures responseCaches == old(responseCaches) && runningCaches == old(runningCaches)
      ensures old(Valid()) ==> Valid()
      ensures old(Valid()) ==>
        var streams := requestCaches[requestData.id].streams;
        && streams.Some? && |streams.value| >= 1 && streams.value[0] == requestData.body
        && (requestData.id in old(requestCaches) ==> |streams.value| == |old(requestCaches)[requestData.id].streams.value| + 1)
    {
      if requestData.id !in requestCaches {
        requestCaches := requestCaches[requestData.id := RequestCache(Some([requestData.body]))];
      } else {
        var streams := requestCaches[requestData.id].streams;
        if streams.Some? {
          streams := Some([requestData.body] + streams.value);
        }
        requestCaches := requestCaches[requestData.id := RequestCache(streams)];
      }
    }

    /**
      `send`: clear the id's caches, push the body, and mark a non-unary call running.
      Afterwards the id's request stream is exactly [body] and it has no response.
    */
    method Send(requestData: RequestData)
      modifies this
      ensures requestCaches == old(requestCaches)[requestData.id := RequestCache(Some([requestData.body]))]
      ensures responseCaches == old(responseCaches) - {requestData.id}
      ensures runningCaches == if requestData.methodMode == Unary then old(runningCaches) - {requestData.id}
                               else old(runningCaches)[requestData.id := true]
      ensures (requestData.id in runningCaches && runningCaches[requestData.id]) <==> requestData.methodMode != Unary
      ensures old(Valid()) ==> Valid()
    {
      RemoveCache(requestData.id);
      Push(requestData);
      if requestData.methodMode != Unary {
        runningCaches := runningCaches[requestData.id := true];
      }
    }

    /** `stopStream`: the method's stream is marked stopped; no other map changes. */
    method StopStream(methodId: string)
      modifies this
      ensures runningCaches == old(runningCaches)[methodId := false]
      ensures requestCaches == old(requestCaches) && responseCaches == old(responseCaches)
      ensures old(Valid()) ==> Valid()
    {
      runningCaches := runningCaches[methodId := false];
    }
  }

  /**
    A send followed by two pushes and two responses: both streams list the
    newest body first, and the next send starts the id afresh.
  */
  method NewestFirstScenario() returns (requests: seq<string>, responses: ResponseCache, store: Store)
    ensures requests == ["c", "b", "a"]
    ensures responses == ResponseCache("x", [], Some(["y", "x"]))
    ensures store.Valid() && "m" in store.requestCaches && store.requestCaches["m"].streams == Some(["d"])
    ensures "m" !in store.responseCaches
    ensures "m" in store.runningCaches && store.runningCaches["m"]
  {
    store := new Store();
    store.Send(RequestData("m", ClientStream, "a"));
    store.Push(RequestData("m", ClientStream, "b"));
    store.Push(RequestData("m", ClientStream, "c"));
    requests := store.requestCaches["m"].streams.value;
    store.OnResponse(ResponseData("m", "x", []));
    store.OnResponse(ResponseData("m", "y", []));
    responses := store.responseCaches["m"];
    assert responses.streams.value == ["y", "x"];
    store.Send(RequestData("m", ClientStream, "d"));
  }
}
