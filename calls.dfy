/**
  The desktop app's call-session layer (uprpc-app/src/grpc/calls.ts).
  Two module-level tables are kept: `clientCaches`, from service name to a
  stub bound to a host, and `callCache`, from request id to the open
  client-streaming or bidirectional call for that id. `makeCall` picks one
  of four strategies by mode; unary and server-streaming calls are never
  registered, the two writing modes reuse the registered call for their id
  or open and register one. A terminal status, or `closeCall`, ends or
  cancels the call and removes the entry.

  The transport is abstract: a call is a handle (its index in `calls`), the
  strategy that opened it is recorded as its Wiring, and `ends`/`cancels`
  count the end() and cancel() calls each handle received. The gRPC events
  are explicit methods (OnData, OnResponse, OnStatus), run one at a time.
*/
module Calls {
  import opened Wrappers
  import opened Types

  datatype Md = Md(key: string, value: string)

  /** The fields of RequestData the call layer reads. */
  datatype RequestData = RequestData(
    id: string, host: string, protoPath: string, includeDirs: seq<string>,
    namespace: string, serviceName: string, methodName: string,
    methodMode: Mode, body: string, mds: seq<Md>)

  // ---------------------------------------------------------------------------
  // Service lookup in a loaded package definition

  /** A service definition: its name and the names of its methods. */
  datatype ServiceDef = ServiceDef(name: string, methods: set<string>)

  /** The object `loadPackageDefinition` returns: namespaces nesting down to service constructors. */
  datatype GrpcNode = Namespace(members: map<string, GrpcNode>) | Service(def: ServiceDef)

  /** The service under `key` of a namespace's members, if that member is a service constructor. */
  function ServiceAt(members: map<string, GrpcNode>, key: string): (r: Option<ServiceDef>)
    ensures r.Some? <==> key in members && members[key].Service?
    ensures r.Some? ==> members[key] == Service(r.value)
  {
    if key in members && members[key].Service? then Some(members[key].def) else None
  }

  /**
    The lookup `loadService` performs, as written: with an empty namespace it
    takes `grpcObject[request.namespace]`, the member named "", not the service.
    A missing namespace or service makes `new service(...)` throw; that is None.
  */
  function LookupAsWritten(root: map<string, GrpcNode>, namespace: string, serviceName: string): (r: Option<ServiceDef>)
    ensures namespace == "" ==> (r.Some? <==> "" in root && root[""].Service?)
    ensures namespace != "" ==> (r.Some? <==>
      namespace in root && root[namespace].Namespace? && serviceName in root[namespace].members
      && root[namespace].members[serviceName].Service?)
    ensures namespace == "" && r.Some? ==> root[""] == Service(r.value)
    ensures namespace != "" && r.Some? ==> root[namespace].members[serviceName] == Service(r.value)
  {
    if namespace == "" then ServiceAt(root, namespace)
    else if namespace in root && root[namespace].Namespace? then ServiceAt(root[namespace].members, serviceName)
    else None
  }

  /** A package definition has no member named "": with an empty namespace the lookup as written finds no service. */
  lemma EmptyNamespaceFindsNothing(def: ServiceDef)
    ensures LookupAsWritten(map[def.name := Service(def)], "", def.name) == None <==> def.name != ""
    ensures def.name != "" ==> Lookup(map[def.name := Service(def)], "", def.name) == Some(def)
  {
  }

  /** The evidently intended lookup: an empty namespace means the service sits at the root. */
  function Lookup(root: map<string, GrpcNode>, namespace: string, serviceName: string): (r: Option<ServiceDef>)
    ensures r.Some? <==>
      if namespace == "" then serviceName in root && root[serviceName].Service?
      else namespace in root && root[namespace].Namespace? && serviceName in root[namespace].members
           && root[namespace].members[serviceName].Service?
    ensures namespace == "" && r.Some? ==> root[serviceName] == Service(r.value)
    ensures namespace != "" && r.Some? ==> root[namespace].members[serviceName] == Service(r.value)
    ensures namespace != "" ==> r == LookupAsWritten(root, namespace, serviceName)
  {
    if namespace == "" then ServiceAt(root, serviceName)
    else if namespace in root && root[namespace].Namespace? then ServiceAt(root[namespace].members, serviceName)
    else None
  }

  // ---------------------------------------------------------------------------
  // Stubs, calls and notifications

  /** A service client built by `new service(host, credentials)`; `serial` tells instances apart. */
  datatype Client = Client(service: ServiceDef, host: string, serial: nat)

  datatype ClientStub = ClientStub(host: string, service: Client)

  datatype StubError = DefinitionNotFound | ServiceNotFound

  datatype StubResult = Stub(stub: ClientStub) | StubFailed(error: StubError)

  /** A transport call: its index in the registry's `calls`. */
  type Handle = nat

  /**
    How a call was opened: the request, whether a callback was supplied, the
    first message sent (none for the two writing modes), the metadata, and the
    listeners the strategy attached (the unary-style response callback, the
    "status" listener, the "data" listener).
  */
  datatype Wiring = Wiring(
    request: RequestData, hasCallback: bool, firstMessage: Option<string>, metadata: seq<Md>,
    responseCallback: bool, statusListener: bool, dataListener: bool)

  /** The strategy of each mode, as `makeUnaryCall` .. `makeBidirectionalStreamCall` open their calls. */
  function WiringFor(request: RequestData, hasCallback: bool): (w: Wiring)
    ensures w.request == request && w.hasCallback == hasCallback && w.metadata == request.mds
    ensures w.firstMessage == if IsWriteStream(request.methodMode) then None else Some(request.body)
    ensures w.statusListener <==> request.methodMode != Unary
    ensures w.dataListener <==> request.methodMode in {ServerStream, BidirectionalStream}
    ensures w.responseCallback <==> request.methodMode != BidirectionalStream
  {
    match request.methodMode
    case Unary => Wiring(request, hasCallback, Some(request.body), request.mds, true, false, false)
    case ServerStream => Wiring(request, hasCallback, Some(request.body), request.mds, true, true, true)
    case ClientStream => Wiring(request, hasCallback, None, request.mds, true, true, false)
    case BidirectionalStream => Wiring(request, hasCallback, None, request.mds, false, true, true)
  }

  /** A registry entry: `{methodMode, call}`. */
  datatype CallEntry = CallEntry(methodMode: Mode, call: Handle)

  /**
    The outcome of an invocation: the call it returns, a BadBody when
    `JSON.parse(request.body)` throws, or NoSuchMethod when the service has no
    method of that name (the code then calls undefined and throws).
  */
  datatype CallResult = CallOk(call: Handle) | BadBody | NoSuchMethod

  /** A terminal status: its code, details and trailing metadata. */
  datatype Status = Status(code: int, details: string, metadata: seq<Md>)

  /** The error a unary-style response callback receives. */
  datatype ServiceError = ServiceError(details: string, metadata: seq<Md>)

  /** One invocation of a call's callback: callback(response, metadata, error, closeStream). */
  datatype Notice = Notice(call: Handle, response: Option<string>, metadata: Option<seq<Md>>, error: Option<string>, closeStream: bool)

  /** What the status listener reports: metadata on code 0, the details as an error otherwise; both close the stream. */
  function StatusNotice(h: Handle, status: Status): (n: Notice)
    ensures n.closeStream && n.response == None && n.call == h
    ensures status.code == 0 <==> n.error.None?
    ensures status.code == 0 ==> n.metadata == Some(status.metadata)
    ensures status.code != 0 ==> n.error == Some(status.details) && n.metadata == None
  {
    if status.code == 0 then Notice(h, None, Some(status.metadata), None, true)
    else Notice(h, None, None, Some(status.details), true)
  }

  class Registry {
    /** `callCache`: request id to the open writing call of that id. */
    var callCache: map<string, CallEntry>
    /** `clientCaches`: service name to the stub last built for it. */
    var clientCaches: map<string, ClientStub>
    /** The number of service clients built so far. */
    var clientsBuilt: nat
    /** Every transport call opened so far, by handle; |calls| is the opened-calls counter. */
    var calls: seq<Wiring>
    /** end() and cancel() calls received by each handle. */
    var ends: seq<nat>
    var cancels: seq<nat>
    /** Every callback invocation, in order. */
    var notices: seq<Notice>

    ghost predicate Counters()
      reads this
    {
      |ends| == |calls| && |cancels| == |calls|
    }

    /** A call that has received neither end() nor cancel(). */
    ghost predicate IsOpen(h: Handle)
      reads this
    {
      h < |ends| && h < |cancels| && ends[h] == 0 && cancels[h] == 0
    }

    /**
      The registry's invariant: each entry holds an open call of a writing
      mode, opened for that very id and mode.
    */
    ghost predicate Valid()
      reads this
    {
      && Counters()
      && forall id :: id in callCache ==>
           var e := callCache[id];
           && e.call < |calls|
           && calls[e.call].request.id == id
           && calls[e.call].request.methodMode == e.methodMode
           && calls[e.call] == WiringFor(calls[e.call].request, calls[e.call].hasCallback)
           && IsWriteStream(e.methodMode)
           && IsOpen(e.call)
    }

    /** Every open call of a writing mode is the one registered under its id. */
    ghost predicate OpenStreamsRegistered()
      reads this
    {
      && Counters()
      && forall h :: 0 <= h < |calls| && IsOpen(h) && IsWriteStream(calls[h].request.methodMode) ==>
           calls[h].request.id in callCache && callCache[calls[h].request.id].call == h
    }

    /** At most one open call of a writing mode per id. */
    ghost predicate AtMostOneOpenStreamPerId()
      reads this
    {
      && Counters()
      && forall h, k ::
           (0 <= h < k < |calls| && IsOpen(h) && IsOpen(k)
            && IsWriteStream(calls[h].request.methodMode) && IsWriteStream(calls[k].request.methodMode))
           ==> calls[h].request.id != calls[k].request.id
    }

    lemma RegisteredStreamsAreUnique()
      requires OpenStreamsRegistered()
      ensures AtMostOneOpenStreamPerId()
    {
    }

    constructor ()
      ensures Valid() && OpenStreamsRegistered()
      ensures callCache == map[] && clientCaches == map[] && clientsBuilt == 0
      ensures calls == [] && ends == [] && cancels == [] && notices == []
    {
      callCache, clientCaches, clientsBuilt := map[], map[], 0;
      calls, ends, cancels, notices := [], [], [], [];
    }

    /**
      `getCallStub`: the cached stub when one exists for the service name and
      its host is the request's host; otherwise load the definition (None: the
      load failed), look the service up, build a client and cache its stub
      under the service name.
    */
    method GetCallStub(request: RequestData, loaded: Option<map<string, GrpcNode>>) returns (r: StubResult)
      modifies this
      ensures var key := request.serviceName;
        if key in old(clientCaches) && old(clientCaches)[key].host == request.host then
          r == Stub(old(clientCaches)[key]) && clientCaches == old(clientCaches) && clientsBuilt == old(clientsBuilt)
        else if loaded.None? then
          r == StubFailed(DefinitionNotFound) && clientCaches == old(clientCaches) && clientsBuilt == old(clientsBuilt)
        else if Lookup(loaded.value, request.namespace, request.serviceName).None? then
          r == StubFailed(ServiceNotFound) && clientCaches == old(clientCaches) && clientsBuilt == old(clientsBuilt)
        else
          var stub := ClientStub(request.host,
            Client(Lookup(loaded.value, request.namespace, request.serviceName).value, request.host, old(clientsBuilt)));
          r == Stub(stub) && clientCaches == old(clientCaches)[key := stub] && clientsBuilt == old(clientsBuilt) + 1
      ensures r.Stub? ==> r.stub.host == request.host
      ensures callCache == old(callCache) && calls == old(calls) && ends == old(ends) && cancels == old(cancels)
      ensures notices == old(notices)
    {
      var clientKey := request.serviceName;
      if clientKey in clientCaches && request.host == clientCaches[clientKey].host {
        return Stub(clientCaches[clientKey]);
      }
      if loaded.None? {
        return StubFailed(DefinitionNotFound);
      }
      var service := Lookup(loaded.value, request.namespace, request.serviceName);
      if service.None? {
        return StubFailed(ServiceNotFound);
      }
      var serviceImpl := Client(service.value, request.host, clientsBuilt);
      clientsBuilt := clientsBuilt + 1;
      var clientStub := ClientStub(request.host, serviceImpl);
      clientCaches := clientCaches[clientKey := clientStub];
      return Stub(clientStub);
    }

    /** Open a transport call for the request with its mode's wiring. */
    method Open(request: RequestData, hasCallback: bool) returns (h: Handle)
      requires Counters()
      modifies this
      ensures h == |old(calls)| && calls == old(calls) + [WiringFor(request, hasCallback)]
      ensures ends == old(ends) + [0] && cancels == old(cancels) + [0] && Counters()
      ensures callCache == old(callCache) && clientCaches == old(clientCaches) && clientsBuilt == old(clientsBuilt)
      ensures notices == old(notices)
    {
      h := |calls|;
      calls := calls + [WiringFor(request, hasCallback)];
      ends := ends + [0];
      cancels := cancels + [0];
    }

    /**
      `makeUnaryCall`: send the body once; nothing is registered.
      `bodyIsJson` says whether `JSON.parse` accepts the body; the argument is
      evaluated before the method is called, so a bad body is reported first.
    */
    method MakeUnaryCall(service: Client, request: RequestData, hasCallback: bool, bodyIsJson: bool) returns (r: CallResult)
      requires Valid() && request.methodMode == Unary
      modifies this
      ensures !bodyIsJson ==> r == BadBody && calls == old(calls)
      ensures bodyIsJson && request.methodName !in service.service.methods ==> r == NoSuchMethod && calls == old(calls)
      ensures bodyIsJson && request.methodName in service.service.methods ==>
        r == CallOk(|old(calls)|) && calls == old(calls) + [WiringFor(request, hasCallback)]
      ensures r.CallOk? ==>
        r.call < |calls| && calls[r.call].firstMessage == Some(request.body)
        && calls[r.call].metadata == request.mds && !calls[r.call].statusListener && !calls[r.call].dataListener
      ensures |old(calls)| <= |calls| && Counters()
      ensures ends[..|old(ends)|] == old(ends) && cancels[..|old(cancels)|] == old(cancels)
      ensures forall h :: |old(calls)| <= h < |calls| ==> IsOpen(h)
      ensures callCache == old(callCache) && clientCaches == old(clientCaches) && clientsBuilt == old(clientsBuilt)
      ensures notices == old(notices)
      ensures Valid() && (old(OpenStreamsRegistered()) ==> OpenStreamsRegistered())
    {
      if !bodyIsJson {
        return BadBody;
      }
      if request.methodName !in service.service.methods {
        return NoSuchMethod;
      }
      var h := Open(request, hasCallback);
      return CallOk(h);
    }

    /**
      `makeServerStreamCall`: send the body once and listen for status and data; nothing is registered.
      `bodyIsJson` says whether `JSON.parse` accepts the body; the argument is
      evaluated before the method is called, so a bad body is reported first.
    */
    method MakeServerStreamCall(service: Client, request: RequestData, hasCallback: bool, bodyIsJson: bool) returns (r: CallResult)
      requires Valid() && request.methodMode == ServerStream
      modifies this
      ensures !bodyIsJson ==> r == BadBody && calls == old(calls)
      ensures bodyIsJson && request.methodName !in service.service.methods ==> r == NoSuchMethod && calls == old(calls)
      ensures bodyIsJson && request.methodName in service.service.methods ==>
        r == CallOk(|old(calls)|) && calls == old(calls) + [WiringFor(request, hasCallback)]
      ensures r.CallOk? ==>
        r.call < |calls| && calls[r.call].firstMessage == Some(request.body)
        && calls[r.call].metadata == request.mds && calls[r.call].statusListener && calls[r.call].dataListener
      ensures |old(calls)| <= |calls| && Counters()
      ensures ends[..|old(ends)|] == old(ends) && cancels[..|old(cancels)|] == old(cancels)
      ensures forall h :: |old(calls)| <= h < |calls| ==> IsOpen(h)
      ensures callCache == old(callCache) && clientCaches == old(clientCaches) && clientsBuilt == old(clientsBuilt)
      ensures notices == old(notices)
      ensures Valid() && (old(OpenStreamsRegistered()) ==> OpenStreamsRegistered())
    {
      if !bodyIsJson {
        return BadBody;
      }
      if request.methodName !in service.service.methods {
        return NoSuchMethod;
      }
      var h := Open(request, hasCallback);
      return CallOk(h);
    }

    /**
      The shared body of `makeClientStreamCall` and `makeBidirectionalStreamCall`:
      return the call registered under the id, or open one (metadata only, no
      message) and register it as `{methodMode, call}`.
    */
    method ReuseOrOpen(service: Client, request: RequestData, hasCallback: bool) returns (r: CallResult)
      requires Valid() && IsWriteStream(request.methodMode)
      modifies this
      ensures request.id in old(callCache) ==>
        r == CallOk(old(callCache)[request.id].call) && calls == old(calls) && callCache == old(callCache)
      ensures request.id !in old(callCache) && request.methodName !in service.service.methods ==>
        r == NoSuchMethod && calls == old(calls) && callCache == old(callCache)
      ensures request.id !in old(callCache) && request.methodName in service.service.methods ==>
        && r == CallOk(|old(calls)|)
        && calls == old(calls) + [WiringFor(request, hasCallback)]
        && callCache == old(callCache)[request.id := CallEntry(request.methodMode, |old(calls)|)]
      ensures |old(calls)| <= |calls| && Counters()
      ensures ends[..|old(ends)|] == old(ends) && cancels[..|old(cancels)|] == old(cancels)
      ensures forall h :: |old(calls)| <= h < |calls| ==> IsOpen(h)
      ensures clientCaches == old(clientCaches) && clientsBuilt == old(clientsBuilt) && notices == old(notices)
      ensures Valid() && (old(OpenStreamsRegistered()) ==> OpenStreamsRegistered())
    {
      if request.id in callCache {
        return CallOk(callCache[request.id].call);
      }
      if request.methodName !in service.service.methods {
        return NoSuchMethod;
      }
      ghost var registered := OpenStreamsRegistered();
      var h := Open(request, hasCallback);
      callCache := callCache[request.id := CallEntry(request.methodMode, h)];
      assert registered ==> OpenStreamsRegistered() by {
        if registered {
          forall k | 0 <= k < |calls| && IsOpen(k) && IsWriteStream(calls[k].request.methodMode)
            ensures calls[k].request.id in callCache && callCache[calls[k].request.id].call == k
          {
            if k < h {
              assert old(IsOpen(k));
            }
          }
        }
      }
      return CallOk(h);
    }

    /** `makeClientStreamCall`. */
    method MakeClientStreamCall(service: Client, request: RequestData, hasCallback: bool) returns (r: CallResult)
      requires Valid() && request.methodMode == ClientStream
      modifies this
      ensures request.id in old(callCache) ==>
        r == CallOk(old(callCache)[request.id].call) && calls == old(calls) && callCache == old(callCache)
      ensures request.id !in old(callCache) && request.methodName !in service.service.methods ==>
        r == NoSuchMethod && calls == old(calls) && callCache == old(callCache)
      ensures request.id !in old(callCache) && request.methodName in service.service.methods ==>
        && r == CallOk(|old(calls)|)
        && calls == old(calls) + [WiringFor(request, hasCallback)]
        && callCache == old(callCache)[request.id := CallEntry(ClientStream, |old(calls)|)]
      ensures |old(calls)| <= |calls| && Counters()
      ensures ends[..|old(ends)|] == old(ends) && cancels[..|old(cancels)|] == old(cancels)
      ensures forall h :: |old(calls)| <= h < |calls| ==> IsOpen(h)
      ensures clientCaches == old(clientCaches) && clientsBuilt == old(clientsBuilt) && notices == old(notices)
      ensures Valid() && (old(OpenStreamsRegistered()) ==> OpenStreamsRegistered())
    {
      r := ReuseOrOpen(service, request, hasCallback);
    }

    /** `makeBidirectionalStreamCall`; its call is opened with metadata only. */
    method MakeBidirectionalStreamCall(service: Client, request: RequestData, hasCallback: bool) returns (r: CallResult)
      requires Valid() && request.methodMode == BidirectionalStream
      modifies this
      ensures request.id in old(callCache) ==>
        r == CallOk(old(callCache)[request.id].call) && calls == old(calls) && callCache == old(callCache)
      ensures request.id !in old(callCache) && request.methodName !in service.service.methods ==>
        r == NoSuchMethod && calls == old(calls) && callCache == old(callCache)
      ensures request.id !in old(callCache) && request.methodName in service.service.methods ==>
        && r == CallOk(|old(calls)|)
        && calls == old(calls) + [WiringFor(request, hasCallback)]
        && calls[|old(calls)|].firstMessage == None
        && callCache == old(callCache)[request.id := CallEntry(BidirectionalStream, |old(calls)|)]
      ensures |old(calls)| <= |calls| && Counters()
      ensures ends[..|old(ends)|] == old(ends) && cancels[..|old(cancels)|] == old(cancels)
      ensures forall h :: |old(calls)| <= h < |calls| ==> IsOpen(h)
      ensures clientCaches == old(clientCaches) && clientsBuilt == old(clientsBuilt) && notices == old(notices)
      ensures Valid() && (old(OpenStreamsRegistered()) ==> OpenStreamsRegistered())
    {
      r := ReuseOrOpen(service, request, hasCallback);
    }

    /**
      `stub.call(request, callback)`, i.e. `makeCall(serviceImpl, request.methodMode)`:
      each mode goes to its own strategy. The unary and server-streaming calls
      leave `callCache` alone; the writing modes reuse the call registered under
      the id and touch no transport, or open exactly one call and register it.
      Only the unary and server-streaming strategies parse the body.
    */
    method Call(stub: ClientStub, request: RequestData, hasCallback: bool, bodyIsJson: bool) returns (r: CallResult)
      requires Valid()
      modifies this
      ensures !IsWriteStream(request.methodMode) || r.NoSuchMethod? ==> callCache == old(callCache)
      ensures !IsWriteStream(request.methodMode) && !bodyIsJson ==> r == BadBody && calls == old(calls)
      ensures IsWriteStream(request.methodMode) && request.id in old(callCache) ==>
        r == CallOk(old(callCache)[request.id].call) && calls == old(calls) && callCache == old(callCache)
      ensures ((IsWriteStream(request.methodMode) && request.id !in old(callCache))
               || (!IsWriteStream(request.methodMode) && bodyIsJson)) ==>
        if request.methodName in stub.service.service.methods then
          r == CallOk(|old(calls)|) && calls == old(calls) + [WiringFor(request, hasCallback)]
        else
          r == NoSuchMethod && calls == old(calls)
      ensures IsWriteStream(request.methodMode) && request.id !in old(callCache) && r.CallOk? ==>
        callCache == old(callCache)[request.id := CallEntry(request.methodMode, r.call)]
      ensures |old(calls)| <= |calls| && Counters()
      ensures ends[..|old(ends)|] == old(ends) && cancels[..|old(cancels)|] == old(cancels)
      ensures forall h :: |old(calls)| <= h < |calls| ==> IsOpen(h)
      ensures clientCaches == old(clientCaches) && clientsBuilt == old(clientsBuilt) && notices == old(notices)
      ensures Valid() && (old(OpenStreamsRegistered()) ==> OpenStreamsRegistered())
    {
      match request.methodMode
      case Unary => r := MakeUnaryCall(stub.service, request, hasCallback, bodyIsJson);
      case ServerStream => r := MakeServerStreamCall(stub.service, request, hasCallback, bodyIsJson);
      case ClientStream => r := MakeClientStreamCall(stub.service, request, hasCallback);
      case BidirectionalStream => r := MakeBidirectionalStreamCall(stub.service, request, hasCallback);
    }

    /** End a call of a writing mode, cancel any other. */
    method EndOrCancel(h: Handle, mode: Mode)
      requires Counters() && h < |calls|
      modifies this
      ensures IsWriteStream(mode) ==> ends == old(ends)[h := old(ends)[h] + 1] && cancels == old(cancels)
      ensures !IsWriteStream(mode) ==> cancels == old(cancels)[h := old(cancels)[h] + 1] && ends == old(ends)
      ensures calls == old(calls) && callCache == old(callCache) && clientCaches == old(clientCaches)
      ensures clientsBuilt == old(clientsBuilt) && notices == old(notices) && Counters() && !IsOpen(h)
      ensures old(RegisteredExcept(h)) ==> OpenStreamsRegistered()
      ensures old(Valid()) && (forall key :: key in callCache ==> callCache[key].call != h) ==> Valid()
    {
      if IsWriteStream(mode) {
        ends := ends[h := ends[h] + 1];
      } else {
        cancels := cancels[h := cancels[h] + 1];
      }
    }

    /**
      `closeCall(id)`: end (writing mode) or cancel the registered call exactly
      once and remove the entry; with no entry, report
      "This request not exist: " + id and touch no transport.
    */
    method CloseCall(id: string) returns (error: Option<string>)
      requires Valid()
      modifies this
      ensures id in old(callCache) ==>
        var e := old(callCache)[id];
        && error == None
        && callCache == old(callCache) - {id}
        && ends == old(ends)[e.call := 1] && cancels == old(cancels)
      ensures id !in old(callCache) ==>
        error == Some("This request not exist: " + id)
        && callCache == old(callCache) && ends == old(ends) && cancels == old(cancels)
      ensures calls == old(calls) && clientCaches == old(clientCaches) && clientsBuilt == old(clientsBuilt)
      ensures notices == old(notices)
      ensures Valid() && (old(OpenStreamsRegistered()) ==> OpenStreamsRegistered())
    {
      if id !in callCache {
        return Some("This request not exist: " + id);
      }
      var entry := callCache[id];
      EndOrCancel(entry.call, entry.methodMode);
      callCache := callCache - {id};
      error := None;
    }

    /** A "data" event: forwarded to the callback when the strategy listens for data. */
    method OnData(h: Handle, data: string)
      requires h < |calls|
      modifies this
      ensures calls == old(calls)
      ensures notices == old(notices) +
        (if calls[h].dataListener && calls[h].hasCallback then [Notice(h, Some(data), None, None, false)] else [])
      ensures calls == old(calls) && ends == old(ends) && cancels == old(cancels) && callCache == old(callCache)
      ensures clientCaches == old(clientCaches) && clientsBuilt == old(clientsBuilt)
    {
      if calls[h].dataListener && calls[h].hasCallback {
        notices := notices + [Notice(h, Some(data), None, None, false)];
      }
    }

    /**
      The unary-style response callback (`grpcCallback`): callback(response,
      metadata of the error, error). Without a callback it reports nothing.
    */
    method OnResponse(h: Handle, err: Option<ServiceError>, response: Option<string>)
      requires h < |calls|
      modifies this
      ensures calls == old(calls)
      ensures var n := Notice(h, response,
                              if err.Some? then Some(err.value.metadata) else None,
                              if err.Some? then Some(err.value.details) else None, false);
        notices == old(notices) + (if calls[h].responseCallback && calls[h].hasCallback then [n] else [])
      ensures calls == old(calls) && ends == old(ends) && cancels == old(cancels) && callCache == old(callCache)
      ensures clientCaches == old(clientCaches) && clientsBuilt == old(clientsBuilt)
    {
      if calls[h].responseCallback && calls[h].hasCallback {
        var n := Notice(h, response,
                        if err.Some? then Some(err.value.metadata) else None,
                        if err.Some? then Some(err.value.details) else None, false);
        notices := notices + [n];
      }
    }

    /**
      The "status" listener, as written: report the outcome, end or cancel the
      call by its request's mode, and delete `callCache[request.id]`, whichever
      call that entry now holds. The deletion and the end or cancel touch
      separate state, so doing the deletion first changes nothing observable.
    */
    method OnStatus(h: Handle, status: Status)
      requires Valid() && h < |calls|
      modifies this
      ensures !old(calls[h].statusListener) ==>
        notices == old(notices) && ends == old(ends) && cancels == old(cancels) && callCache == old(callCache)
      ensures old(calls[h].statusListener) ==>
        var w := old(calls[h]);
        && notices == old(notices) + (if w.hasCallback then [StatusNotice(h, status)] else [])
        && (IsWriteStream(w.request.methodMode) ==> ends == old(ends)[h := old(ends)[h] + 1] && cancels == old(cancels))
        && (!IsWriteStream(w.request.methodMode) ==> cancels == old(cancels)[h := old(cancels)[h] + 1] && ends == old(ends))
        && callCache == old(callCache) - {w.request.id}
      ensures calls == old(calls) && clientCaches == old(clientCaches) && clientsBuilt == old(clientsBuilt)
      ensures Valid()
    {
      var w := calls[h];
      if !w.statusListener {
        return;
      }
      if w.hasCallback {
        Report(StatusNotice(h, status));
      }
      DropEntry(w.request.id, h);
      EndOrCancel(h, w.request.methodMode);
    }

    /**
      The status listener as evidently intended: the same, except that the
      entry is deleted only when it still holds this call. It keeps every open
      writing call registered, so at most one is open per id.
    */
    method OnStatusOwnEntry(h: Handle, status: Status)
      requires Valid() && h < |calls|
      modifies this
      ensures !old(calls[h].statusListener) ==>
        notices == old(notices) && ends == old(ends) && cancels == old(cancels) && callCache == old(callCache)
      ensures old(calls[h].statusListener) ==>
        var w := old(calls[h]);
        && notices == old(notices) + (if w.hasCallback then [StatusNotice(h, status)] else [])
        && (IsWriteStream(w.request.methodMode) ==> ends == old(ends)[h := old(ends)[h] + 1] && cancels == old(cancels))
        && (!IsWriteStream(w.request.methodMode) ==> cancels == old(cancels)[h := old(cancels)[h] + 1] && ends == old(ends))
        && callCache == if w.request.id in old(callCache) && old(callCache)[w.request.id].call == h
                        then old(callCache) - {w.request.id} else old(callCache)
      ensures calls == old(calls) && clientCaches == old(clientCaches) && clientsBuilt == old(clientsBuilt)
      ensures Valid() && (old(OpenStreamsRegistered()) ==> OpenStreamsRegistered())
      ensures old(OpenStreamsRegistered()) ==> AtMostOneOpenStreamPerId()
    {
      var w := calls[h];
      if !w.statusListener {
        if OpenStreamsRegistered() {
          RegisteredStreamsAreUnique();
        }
        return;
      }
      ghost var registered := OpenStreamsRegistered();
      if w.hasCallback {
        Report(StatusNotice(h, status));
      }
      DropOwnEntry(w.request.id, h);
      EndOrCancel(h, w.request.methodMode);
      if registered {
        RegisteredStreamsAreUnique();
      }
    }

    /** Every open writing call other than `h` is the one registered under its id. */
    ghost predicate RegisteredExcept(h: Handle)
      reads this
    {
      && Counters()
      && forall k :: 0 <= k < |calls| && k != h && IsOpen(k) && IsWriteStream(calls[k].request.methodMode) ==>
           calls[k].request.id in callCache && callCache[calls[k].request.id].call == k
    }

    /** Invoke the callback. */
    method Report(n: Notice)
      requires Valid()
      modifies this
      ensures notices == old(notices) + [n]
      ensures calls == old(calls) && ends == old(ends) && cancels == old(cancels) && callCache == old(callCache)
      ensures clientCaches == old(clientCaches) && clientsBuilt == old(clientsBuilt)
      ensures Valid() && (old(OpenStreamsRegistered()) ==> OpenStreamsRegistered())
    {
      notices := notices + [n];
    }

    /** Remove the entry of `id`, whichever call it holds; `h` is a call opened for `id`. */
    method DropEntry(id: string, h: Handle)
      requires Valid() && h < |calls| && calls[h].request.id == id
      modifies this
      ensures callCache == old(callCache) - {id}
      ensures calls == old(calls) && ends == old(ends) && cancels == old(cancels) && notices == old(notices)
      ensures clientCaches == old(clientCaches) && clientsBuilt == old(clientsBuilt)
      ensures Valid() && forall key :: key in callCache ==> callCache[key].call != h
    {
      callCache := callCache - {id};
    }

    /** Remove the entry of `id` when it still holds call `h`, the call opened for `id`. */
    method DropOwnEntry(id: string, h: Handle)
      requires Valid() && h < |calls| && calls[h].request.id == id
      modifies this
      ensures callCache == if id in old(callCache) && old(callCache)[id].call == h then old(callCache) - {id} else old(callCache)
      ensures calls == old(calls) && ends == old(ends) && cancels == old(cancels) && notices == old(notices)
      ensures clientCaches == old(clientCaches) && clientsBuilt == old(clientsBuilt)
      ensures Valid() && forall key :: key in callCache ==> callCache[key].call != h
      ensures old(OpenStreamsRegistered()) ==> RegisteredExcept(h)
    {
      if id in callCache && callCache[id].call == h {
        callCache := callCache - {id};
      }
    }
  }

  // ---------------------------------------------------------------------------
  // Call sequences

  function StreamRequest(id: string, mode: Mode, body: string): RequestData
  {
    RequestData(id, "localhost:50051", "demo.proto", [], "demo", "Demo", "Chat", mode, body, [])
  }

  const DemoStub: ClientStub := ClientStub("localhost:50051", Client(ServiceDef("Demo", {"Chat"}), "localhost:50051", 0))

  /**
    Three pushes on one client-streaming id open one call; its terminal status
    leaves no entry; the next push opens a new call.
  */
  method ReuseThenReopen() returns (r: Registry, first: Handle, again: Handle)
    ensures r.Valid() && |r.calls| == 2 && first == 0 && again == 1
    ensures r.ends == [1, 0] && r.cancels == [0, 0]
    ensures r.callCache == map["s1" := CallEntry(ClientStream, 1)]
  {
    r := new Registry();
    assert "Chat" in DemoStub.service.service.methods;
    var c1 := r.Call(DemoStub, StreamRequest("s1", ClientStream, "a"), true, true);
    assert c1 == CallOk(0) && r.callCache == map["s1" := CallEntry(ClientStream, 0)];
    assert r.ends == [0] && r.cancels == [0] by {
      assert r.IsOpen(0);
    }
    var c2 := r.Call(DemoStub, StreamRequest("s1", ClientStream, "b"), true, true);
    var c3 := r.Call(DemoStub, StreamRequest("s1", ClientStream, "c"), true, true);
    assert c1 == c2 == c3 == CallOk(0) && |r.calls| == 1;
    first := c1.call;
    r.OnStatus(first, Status(0, "OK", []));
    assert r.callCache == map[] && r.ends == [1] && r.cancels == [0];
    var c4 := r.Call(DemoStub, StreamRequest("s1", ClientStream, "d"), true, true);
    assert r.IsOpen(1);
    again := c4.call;
  }

  /**
    The as-written status listener breaks the one-open-call-per-id invariant:
    close a call, push again on the same id, and let the first call's status
    arrive; it deletes the second call's entry, so a further push opens a
    third call while the second is still open.
  */
  method StaleStatusDropsNewerEntry() returns (r: Registry, second: Handle, third: Handle)
    ensures r.Valid() && r.IsOpen(second) && r.IsOpen(third) && second != third
    ensures second < |r.calls| && third < |r.calls|
    ensures r.calls[second].request.id == r.calls[third].request.id == "s"
    ensures IsWriteStream(r.calls[second].request.methodMode) && IsWriteStream(r.calls[third].request.methodMode)
    ensures !r.AtMostOneOpenStreamPerId()
  {
    r, second := StaleStatusArrives();
    ghost var ends, cancels := r.ends, r.cancels;
    var c3 := r.Call(DemoStub, StreamRequest("s", ClientStream, "c"), true, true);
    third := c3.call;
    assert third == 2 && r.IsOpen(third);
    assert r.IsOpen(second) by {
      assert r.ends[1] == r.ends[..2][1] == ends[1];
      assert r.cancels[1] == r.cancels[..2][1] == cancels[1];
    }
  }

  /** Push, close and push again on one id, then deliver the first call's status late: the cache is left empty. */
  method StaleStatusArrives() returns (r: Registry, second: Handle)
    ensures fresh(r)
    ensures r.Valid() && r.callCache == map[] && |r.calls| == 2 && second == 1 && r.IsOpen(second)
    ensures r.calls[second].request == StreamRequest("s", ClientStream, "b")
  {
    r := new Registry();
    assert "Chat" in DemoStub.service.service.methods;
    var c1 := r.Call(DemoStub, StreamRequest("s", ClientStream, "a"), true, true);
    assert c1 == CallOk(0) && r.callCache == map["s" := CallEntry(ClientStream, 0)];
    var closed := r.CloseCall("s");
    var c2 := r.Call(DemoStub, StreamRequest("s", ClientStream, "b"), true, true);
    assert c2 == CallOk(1) && r.callCache == map["s" := CallEntry(ClientStream, 1)] && r.IsOpen(1);
    r.OnStatus(c1.call, Status(1, "Cancelled", []));
    second := c2.call;
  }

  /** The same sequence with the corrected listener: the late status leaves the newer entry, and the push reuses it. */
  method StaleStatusWithOwnEntry() returns (r: Registry, second: Handle, third: Handle)
    ensures r.Valid() && r.OpenStreamsRegistered() && r.AtMostOneOpenStreamPerId()
    ensures second == third && r.IsOpen(second) && |r.calls| == 2
  {
    r := new Registry();
    var c1 := r.Call(DemoStub, StreamRequest("s", ClientStream, "a"), true, true);
    var closed := r.CloseCall("s");
    var c2 := r.Call(DemoStub, StreamRequest("s", ClientStream, "b"), true, true);
    r.OnStatusOwnEntry(c1.call, Status(1, "Cancelled", []));
    var c3 := r.Call(DemoStub, StreamRequest("s", ClientStream, "c"), true, true);
    second, third := c2.call, c3.call;
    r.RegisteredStreamsAreUnique();
  }
}
