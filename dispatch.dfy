/** What the bridge server does with one message from the wallet app: the
    handler each method name selects, the parameters it reads, the node
    calls it makes, the response it sends and what it changes, as pure
    functions of the registry, the node client's state, the node and the
    clock. */
module Dispatch {
  import opened Wrappers
  import opened Json
  import opened BridgeProtocol
  import opened NodeRpc
  import ServerState

  type Registry = ServerState.Registry

  /** The node client's state as a handler sees it: the node address, the
      detected public API port and the private API password. */
  datatype Client = Client(host: string, port: Option<Int32>, password: string)

  /** What handling a request leaves: the registry, the port the client has
      detected afterwards, and the response. */
  datatype Step = Step(registry: Registry, port: Option<Int32>, response: BridgeResponse)

  // ---------------------------------------------------------------------
  // Responses.

  /** A success carries no error and a failure carries no result. */
  predicate WellShaped(r: BridgeResponse) {
    (r.success ==> r.error.None?) && (!r.success ==> r.result.None?)
  }

  function Refusal(id: string, error: string): (r: BridgeResponse)
    ensures WellShaped(r) && !r.success && r.id == id
  {
    BridgeResponse(id, false, error := Some(error))
  }

  /** The response to a node result: its value, or the exception's message
      (absent when the exception had none). */
  function Answered(id: string, res: Result<Json>): (r: BridgeResponse)
    ensures WellShaped(r) && r.success == res.Success? && r.id == id
  {
    match res
    case Success(v) => BridgeResponse(id, true, result := Some(v))
    case Failure(msg) => BridgeResponse(id, false, error := msg)
  }

  function StatusJson(r: Result<NodeStatus>): Result<Json> {
    match r
    case Success(s) => Success(EncodeNodeStatus(s))
    case Failure(msg) => Failure(msg)
  }

  function StakingJson(r: Result<StakingInfo>): Result<Json> {
    match r
    case Success(s) => Success(EncodeStakingInfo(s))
    case Failure(msg) => Failure(msg)
  }

  function StringsJson(r: Result<seq<string>>): Result<Json> {
    match r
    case Success(ss) => Success(StrArray(ss))
    case Failure(msg) => Failure(msg)
  }

  /** The answer to `connect`: the session id, whether the node answered,
      and its status when it did. */
  function ConnectResponse(id: string, sessionId: string, status: Result<NodeStatus>): (r: BridgeResponse)
    ensures WellShaped(r) && r.success && r.id == id
  {
    var fields := map["sessionId" := Str(sessionId), "nodeConnected" := Bool(status.Success? && status.value.connected)];
    BridgeResponse(id, true, result := Some(JObj(
      if status.Success? then fields["nodeStatus" := EncodeNodeStatus(status.value)] else fields)))
  }

  /** A handler leaves the sessions and the running flag alone and only
      adds events. */
  predicate Confined(before: Registry, after: Registry) {
    after.sessions == before.sessions && after.running == before.running && before.events <= after.events
  }

  const AddressRequired: string := "Address required"

  /** The handlers reading an "address" parameter and refusing without one. */
  predicate NeedsAddress(m: Method) {
    m == GetStakingInfo || m == BuyRolls || m == SellRolls || m == RemoveStakingKey || m == GetRewards
  }

  // ---------------------------------------------------------------------
  // The handlers. A Failure is an exception escaping the handler: a
  // parameter of the wrong shape, which fails before anything changes.

  /** `handleConnect`: files a device for the session, then asks the node
      for its status. */
  function ConnectStep(reg: Registry, cl: Client, node: Node, now: Int64, sessionId: string, req: BridgeRequest): (r: Result<Step>)
    ensures r.Success? ==> WellShaped(r.value.response) && Confined(reg, r.value.registry)
    ensures r.Success? ==> r.value.response.id == req.id
  {
    var name :- OptContent(req.params, "deviceName");
    var platform :- OptContent(req.params, "platform");
    var wallet :- OptContent(req.params, "walletAddress");
    var device := ConnectedDevice(sessionId, name.GetOr("Unknown"), platform.GetOr("Unknown"), now, wallet);
    var c := Rpc(node, cl.host, cl.port, now, "get_status", EmptyParams);
    Success(Step(ServerState.Connect(reg, sessionId, device), c.port, ConnectResponse(req.id, sessionId, StatusOf(c, cl.host))))
  }

  /** `handleDisconnect`: forgets the session's device; the session stays open. */
  function DisconnectStep(reg: Registry, cl: Client, sessionId: string): (r: Step)
    ensures WellShaped(r.response) && r.port == cl.port && Confined(reg, r.registry)
    ensures r.response.id == "disconnect"
  {
    Step(ServerState.Disconnect(reg, sessionId), cl.port, BridgeResponse("disconnect", true))
  }

  function PingStep(reg: Registry, cl: Client, now: Int64, req: BridgeRequest): (r: Step)
    ensures WellShaped(r.response) && r.registry == reg
    ensures r.response.id == req.id
  {
    Step(reg, cl.port, BridgeResponse(req.id, true, result := Some(JObj(map["pong" := Num(now)]))))
  }

  function NodeStatusStep(reg: Registry, cl: Client, node: Node, now: Int64, req: BridgeRequest): (r: Step)
    ensures WellShaped(r.response) && r.registry == reg
    ensures r.response.id == req.id
  {
    var c := Rpc(node, cl.host, cl.port, now, "get_status", EmptyParams);
    Step(reg, c.port, Answered(req.id, StatusJson(StatusOf(c, cl.host))))
  }

  function NetworkInfoStep(reg: Registry, cl: Client, node: Node, now: Int64, req: BridgeRequest): (r: Step)
    ensures WellShaped(r.response) && r.registry == reg
    ensures r.response.id == req.id
  {
    var c := Rpc(node, cl.host, cl.port, now, "get_status", EmptyParams);
    Step(reg, c.port, Answered(req.id, c.result))
  }

  /** `handleGetStakingInfo`: on success the session's device, if any,
      records the address and the info, and the published list is rebuilt
      from the device map in its iteration order `order`. */
  function StakingInfoStep(reg: Registry, cl: Client, node: Node, now: Int64, sessionId: string, req: BridgeRequest,
                           order: seq<string>): (r: Result<Step>)
    requires ServerState.IsListing(order, reg.devices.Keys)
    ensures r.Success? ==> WellShaped(r.value.response) && Confined(reg, r.value.registry)
    ensures r.Success? ==> r.value.response.id == req.id
  {
    var address :- OptContent(req.params, "address");
    if address.None? then Success(Step(reg, cl.port, Refusal(req.id, AddressRequired)))
    else
      var c := Rpc(node, cl.host, cl.port, now, "get_addresses", SingletonParams(address.value));
      var info := StakingOf(c, address.value);
      var reg' := if info.Success? && sessionId in reg.devices
        then ServerState.RecordStaking(reg, sessionId, address.value, info.value, order)
        else reg;
      Success(Step(reg', c.port, Answered(req.id, StakingJson(info))))
  }

  /** `handleBuyRolls` / `handleSellRolls`: an unsigned roll operation,
      without calling the node. */
  function RollsStep(reg: Registry, cl: Client, req: BridgeRequest, opType: string): (r: Result<Step>)
    ensures r.Success? ==> WellShaped(r.value.response) && r.value.registry == reg && r.value.port == cl.port
    ensures r.Success? ==> r.value.response.id == req.id
  {
    var address :- OptContent(req.params, "address");
    if address.None? then Success(Step(reg, cl.port, Refusal(req.id, AddressRequired)))
    else
      var rollCount :- OptInt(req.params, "rollCount");
      if rollCount.None? then Success(Step(reg, cl.port, Refusal(req.id, "Roll count required")))
      else
        var fee :- OptContent(req.params, "fee");
        var operation := PrepareRolls(opType, address.value, rollCount.value as Int32, fee.GetOr("0.01"));
        Success(Step(reg, cl.port, Answered(req.id, Success(operation))))
  }

  /** The private API call of a handler. */
  function Private(cl: Client, node: Node, now: Int64, methodName: string, params: Json): Result<Json> {
    PrivateResult(node(PrivateRequest(cl.host, cl.password, now, methodName, params)))
  }

  function StakingAddressesStep(reg: Registry, cl: Client, node: Node, now: Int64, req: BridgeRequest): (r: Step)
    ensures WellShaped(r.response) && r.registry == reg && r.port == cl.port
    ensures r.response.id == req.id
  {
    Step(reg, cl.port, Answered(req.id, StringsJson(StringsOf(Private(cl, node, now, "get_staking_addresses", EmptyParams)))))
  }

  function SendOperationsStep(reg: Registry, cl: Client, node: Node, now: Int64, req: BridgeRequest): (r: Result<Step>)
    ensures r.Success? ==> WellShaped(r.value.response) && r.value.registry == reg
    ensures r.Success? ==> r.value.response.id == req.id
  {
    var operations :- OptArray(req.params, "operations");
    if operations.None? then Success(Step(reg, cl.port, Refusal(req.id, "Operations required")))
    else
      var c := Rpc(node, cl.host, cl.port, now, "send_operations", JArr(operations.value));
      Success(Step(reg, c.port, Answered(req.id, StringsJson(StringsOf(c.result)))))
  }

  function OperationsStep(reg: Registry, cl: Client, node: Node, now: Int64, req: BridgeRequest): (r: Result<Step>)
    ensures r.Success? ==> WellShaped(r.value.response) && r.value.registry == reg
    ensures r.Success? ==> r.value.response.id == req.id
  {
    var items :- OptArray(req.params, "operationIds");
    if items.None? then Success(Step(reg, cl.port, Refusal(req.id, "Operation IDs required")))
    else
      var ids :- Contents(items.value);
      var c := Rpc(node, cl.host, cl.port, now, "get_operations", OperationIdParams(ids));
      Success(Step(reg, c.port, Answered(req.id, c.result)))
  }

  /** `handleAddStakingKey`: registers the key, then lists the staking
      addresses (an empty list when that second call fails). */
  function AddStakingKeyStep(reg: Registry, cl: Client, node: Node, now: Int64, req: BridgeRequest): (r: Result<Step>)
    ensures r.Success? ==> WellShaped(r.value.response) && r.value.registry == reg && r.value.port == cl.port
    ensures r.Success? ==> r.value.response.id == req.id
  {
    var secretKey :- OptContent(req.params, "secretKey");
    if secretKey.None? then Success(Step(reg, cl.port, Refusal(req.id, "Secret key required")))
    else
      var added := AcceptedOf(Private(cl, node, now, "add_staking_secret_keys", SingletonParams(secretKey.value)));
      if added.Failure? then
        Success(Step(reg, cl.port, Refusal(req.id, "Failed to register: " + added.message.GetOr(UnknownError))))
      else
        var listed := StringsOf(Private(cl, node, now, "get_staking_addresses", EmptyParams));
        var addresses := if listed.Success? then listed.value else [];
        Success(Step(reg, cl.port, BridgeResponse(req.id, true, result := Some(JObj(map[
          "success" := Bool(true),
          "message" := Str("Staking key registered on node"),
          "stakingAddresses" := StrArray(addresses)])))))
  }

  function RemoveStakingKeyStep(reg: Registry, cl: Client, node: Node, now: Int64, req: BridgeRequest): (r: Result<Step>)
    ensures r.Success? ==> WellShaped(r.value.response) && r.value.registry == reg && r.value.port == cl.port
    ensures r.Success? ==> r.value.response.id == req.id
  {
    var address :- OptContent(req.params, "address");
    if address.None? then Success(Step(reg, cl.port, Refusal(req.id, AddressRequired)))
    else
      var removed := AcceptedOf(Private(cl, node, now, "remove_staking_addresses", SingletonParams(address.value)));
      if removed.Failure? then
        Success(Step(reg, cl.port, Refusal(req.id, "Failed: " + removed.message.GetOr(UnknownError))))
      else
        Success(Step(reg, cl.port, BridgeResponse(req.id, true, result := Some(JObj(map[
          "success" := Bool(true),
          "message" := Str("Staking stopped for " + address.value)])))))
  }

  /** `handleGetRewards`: rewards are not tracked, so always zero. */
  function RewardsStep(reg: Registry, cl: Client, req: BridgeRequest): (r: Result<Step>)
    ensures r.Success? ==> WellShaped(r.value.response) && r.value.registry == reg && r.value.port == cl.port
    ensures r.Success? ==> r.value.response.id == req.id
  {
    var address :- OptContent(req.params, "address");
    if address.None? then Success(Step(reg, cl.port, Refusal(req.id, AddressRequired)))
    else
      Success(Step(reg, cl.port, BridgeResponse(req.id, true, result := Some(JObj(map[
        "address" := Str(address.value),
        "totalRewards" := Str("0"),
        "cycleRewards" := JArr([])])))))
  }

  // ---------------------------------------------------------------------
  // Routing and the message loop's step.

  /** The handler a method name selects: every method name but
      `get_addresses`, which has no handler. */
  function Route(name: string): (r: Option<Method>)
    ensures r.Some? ==> r.value.Name() == name && r.value != GetAddresses
  {
    match MethodNamed(name)
    case Some(GetAddresses) => None
    case other => other
  }

  function Dispatch(reg: Registry, cl: Client, node: Node, now: Int64, sessionId: string, req: BridgeRequest,
                    order: seq<string>): (r: Result<Step>)
    requires ServerState.IsListing(order, reg.devices.Keys)
    ensures r.Success? ==> WellShaped(r.value.response)
    ensures r.Success? ==> Confined(reg, r.value.registry)
  {
    match Route(req.methodName)
    case None => Success(Step(reg, cl.port, Refusal(req.id, "Unknown method: " + req.methodName)))
    case Some(m) =>
      match m
      case Connect => ConnectStep(reg, cl, node, now, sessionId, req)
      case Disconnect => Success(DisconnectStep(reg, cl, sessionId))
      case Ping => Success(PingStep(reg, cl, now, req))
      case GetNodeStatus => Success(NodeStatusStep(reg, cl, node, now, req))
      case GetNetworkInfo => Success(NetworkInfoStep(reg, cl, node, now, req))
      case GetStakingInfo => StakingInfoStep(reg, cl, node, now, sessionId, req, order)
      case BuyRolls => RollsStep(reg, cl, req, "buy_rolls")
      case SellRolls => RollsStep(reg, cl, req, "sell_rolls")
      case GetStakingAddresses => Success(StakingAddressesStep(reg, cl, node, now, req))
      case AddStakingKey => AddStakingKeyStep(reg, cl, node, now, req)
      case RemoveStakingKey => RemoveStakingKeyStep(reg, cl, node, now, req)
      case GetRewards => RewardsStep(reg, cl, req)
      case SendOperations => SendOperationsStep(reg, cl, node, now, req)
      case GetOperations => OperationsStep(reg, cl, node, now, req)
      case GetAddresses => Success(Step(reg, cl.port, Refusal(req.id, "Unknown method: " + req.methodName)))
  }

  /** A handled request is answered under its own id, except `disconnect`,
      which answers under "disconnect". */
  lemma DispatchEchoesId(reg: Registry, cl: Client, node: Node, now: Int64, sessionId: string, req: BridgeRequest,
                         order: seq<string>)
    requires ServerState.IsListing(order, reg.devices.Keys)
    ensures var d := Dispatch(reg, cl, node, now, sessionId, req, order);
      d.Success? ==> d.value.response.id == (if Route(req.methodName) == Some(Disconnect) then "disconnect" else req.id)
  {
    var d := Dispatch(reg, cl, node, now, sessionId, req, order);
    match Route(req.methodName)
    case None =>
    case Some(m) =>
      match m
      case Connect => assert d == ConnectStep(reg, cl, node, now, sessionId, req);
      case Disconnect => assert d == Success(DisconnectStep(reg, cl, sessionId));
      case Ping => assert d == Success(PingStep(reg, cl, now, req));
      case GetNodeStatus => assert d == Success(NodeStatusStep(reg, cl, node, now, req));
      case GetNetworkInfo => assert d == Success(NetworkInfoStep(reg, cl, node, now, req));
      case GetStakingInfo => assert d == StakingInfoStep(reg, cl, node, now, sessionId, req, order);
      case BuyRolls => assert d == RollsStep(reg, cl, req, "buy_rolls");
      case SellRolls => assert d == RollsStep(reg, cl, req, "sell_rolls");
      case GetStakingAddresses => assert d == Success(StakingAddressesStep(reg, cl, node, now, req));
      case AddStakingKey => assert d == AddStakingKeyStep(reg, cl, node, now, req);
      case RemoveStakingKey => assert d == RemoveStakingKeyStep(reg, cl, node, now, req);
      case GetRewards => assert d == RewardsStep(reg, cl, req);
      case SendOperations => assert d == SendOperationsStep(reg, cl, node, now, req);
      case GetOperations => assert d == OperationsStep(reg, cl, node, now, req);
      case GetAddresses =>
  }

  /** The request a text frame carries, or why it could not be read. */
  function RequestOf(text: Result<Json>): Result<BridgeRequest> {
    match text
    case Success(j) => DecodeRequest(j)
    case Failure(msg) => Failure(msg)
  }

  /** One frame sent on a session, if it is still open. */
  function Send(reg: Registry, sessionId: string, frame: Json): Registry {
    if sessionId in reg.sessions then reg.(sessions := reg.sessions[sessionId := reg.sessions[sessionId] + [frame]])
    else reg
  }

  /** `handleMessage`: a request that cannot be read, or whose handler
      throws, gets an error response with id "error" and changes nothing;
      either way exactly one response goes back on the session. */
  function Handle(reg: Registry, cl: Client, node: Node, now: Int64, sessionId: string, text: Result<Json>,
                  order: seq<string>): (s: Step)
    requires ServerState.IsListing(order, reg.devices.Keys)
    ensures WellShaped(s.response)
    ensures match RequestOf(text)
      case Failure(_) => s.response.id == "error"
      case Success(req) =>
        s.response.id == (if Dispatch(reg, cl, node, now, sessionId, req, order).Failure? then "error"
                          else if Route(req.methodName) == Some(Disconnect) then "disconnect"
                          else req.id)
  {
    match RequestOf(text)
    case Failure(msg) => Reply(reg, cl, sessionId, Failure(msg))
    case Success(req) =>
      DispatchEchoesId(reg, cl, node, now, sessionId, req, order);
      Reply(reg, cl, sessionId, Dispatch(reg, cl, node, now, sessionId, req, order))
  }

  /** The handler's step, or the "error" answer when reading the request or
      handling it threw; the response is then sent on the session. */
  function Reply(reg: Registry, cl: Client, sessionId: string, handled: Result<Step>): Step {
    var step := match handled
      case Success(s) => s
      case Failure(msg) => Step(reg, cl.port, BridgeResponse("error", false, error := msg));
    step.(registry := Send(step.registry, sessionId, EncodeResponse(step.response)))
  }

  /** One tick of the status poller: `isNodeConnected`, then, when the node
      answered, `getNodeStatus`, each a `get_status` call. */
  function Tick(reg: Registry, cl: Client, node: Node, now: Int64): (t: (Registry, Option<Int32>))
    ensures t.0.state.nodeConnected == Rpc(node, cl.host, cl.port, now, "get_status", EmptyParams).result.Success?
    ensures t.0.devices == reg.devices && t.0.events == reg.events && t.0.running == reg.running
  {
    var first := Rpc(node, cl.host, cl.port, now, "get_status", EmptyParams);
    var connected := first.result.Success?;
    if connected then
      var second := Rpc(node, cl.host, first.port, now, "get_status", EmptyParams);
      (ServerState.Poll(reg, true, StatusOf(second, cl.host).ToOption()), second.port)
    else (ServerState.Poll(reg, false, None), first.port)
  }

  // ---------------------------------------------------------------------
  // What every message does.

  /** Each method name but `get_addresses` selects its own handler, and
      nothing else selects one. */
  lemma RouteNames(m: Method, name: string)
    ensures Route(m.Name()) == if m == GetAddresses then None else Some(m)
    ensures Route(name).None? <==> MethodNamed(name).None? || MethodNamed(name) == Some(GetAddresses)
  {
    MethodNamedName(m);
  }

  /** Each message gets exactly one well-shaped response, sent on its own
      session and on no other; the server's running state is untouched. */
  lemma HandleReplies(reg: Registry, cl: Client, node: Node, now: Int64, sessionId: string, text: Result<Json>,
                      order: seq<string>)
    requires ServerState.IsListing(order, reg.devices.Keys)
    requires sessionId in reg.sessions
    ensures var s := Handle(reg, cl, node, now, sessionId, text, order);
      && WellShaped(s.response)
      && s.registry.sessions == reg.sessions[sessionId := reg.sessions[sessionId] + [EncodeResponse(s.response)]]
      && s.registry.running == reg.running
      && reg.events <= s.registry.events
    ensures var s := Handle(reg, cl, node, now, sessionId, text, order);
      match RequestOf(text)
      case Failure(_) => s.response.id == "error"
      case Success(req) =>
        s.response.id == (if Dispatch(reg, cl, node, now, sessionId, req, order).Failure? then "error"
                          else if Route(req.methodName) == Some(Disconnect) then "disconnect"
                          else req.id)
  {
  }

  /** A frame that is not a readable request, and a handler that throws,
      are answered with an "error" response carrying the exception's
      message, and change nothing else. */
  lemma HandleUnreadable(reg: Registry, cl: Client, node: Node, now: Int64, sessionId: string, text: Result<Json>,
                         order: seq<string>)
    requires ServerState.IsListing(order, reg.devices.Keys)
    requires RequestOf(text).Failure? || Dispatch(reg, cl, node, now, sessionId, RequestOf(text).value, order).Failure?
    ensures var s := Handle(reg, cl, node, now, sessionId, text, order);
      var msg := if RequestOf(text).Failure? then RequestOf(text).message
        else Dispatch(reg, cl, node, now, sessionId, RequestOf(text).value, order).message;
      && s.response == BridgeResponse("error", false, error := msg)
      && s.port == cl.port
      && s.registry == Send(reg, sessionId, EncodeResponse(s.response))
  {
  }

  /** A method name without a handler is refused by name and changes
      nothing. */
  lemma UnknownMethod(reg: Registry, cl: Client, node: Node, now: Int64, sessionId: string, req: BridgeRequest,
                      order: seq<string>)
    requires ServerState.IsListing(order, reg.devices.Keys)
    requires Route(req.methodName).None?
    ensures Dispatch(reg, cl, node, now, sessionId, req, order)
         == Success(Step(reg, cl.port, BridgeResponse(req.id, false, error := Some("Unknown method: " + req.methodName))))
  {
  }

  /** The handlers that need an address refuse a request without one,
      before calling the node, and throw on one that is an array or an
      object. */
  lemma AddressChecked(reg: Registry, cl: Client, node: Node, now: Int64, sessionId: string, req: BridgeRequest,
                       order: seq<string>)
    requires ServerState.IsListing(order, reg.devices.Keys)
    requires Route(req.methodName).Some? && NeedsAddress(Route(req.methodName).value)
    ensures "address" !in req.params ==>
      Dispatch(reg, cl, node, now, sessionId, req, order) == Success(Step(reg, cl.port, Refusal(req.id, AddressRequired)))
    ensures "address" in req.params && (req.params["address"].JArr? || req.params["address"].JObj?) ==>
      Dispatch(reg, cl, node, now, sessionId, req, order) == Fail(CastMessage(req.params["address"], "JsonPrimitive"))
  {
  }

  /** A roll request with a readable address but no roll count, or one
      whose text is not a 32-bit integer, is refused with "Roll count
      required"; an array or object there throws. */
  lemma RollCountChecked(reg: Registry, cl: Client, node: Node, now: Int64, sessionId: string, req: BridgeRequest,
                         order: seq<string>)
    requires ServerState.IsListing(order, reg.devices.Keys)
    requires Route(req.methodName) == Some(BuyRolls) || Route(req.methodName) == Some(SellRolls)
    ensures "address" in req.params && req.params["address"].JPrim? && "rollCount" !in req.params ==>
      Dispatch(reg, cl, node, now, sessionId, req, order) == Success(Step(reg, cl.port, Refusal(req.id, "Roll count required")))
    ensures ("address" in req.params && req.params["address"].JPrim? && "rollCount" in req.params
             && req.params["rollCount"].JPrim? && ParseInt(req.params["rollCount"].content, IntMin, IntMax).None?) ==>
      Dispatch(reg, cl, node, now, sessionId, req, order) == Success(Step(reg, cl.port, Refusal(req.id, "Roll count required")))
    ensures ("address" in req.params && req.params["address"].JPrim? && "rollCount" in req.params
             && (req.params["rollCount"].JArr? || req.params["rollCount"].JObj?)) ==>
      Dispatch(reg, cl, node, now, sessionId, req, order) == Fail(CastMessage(req.params["rollCount"], "JsonPrimitive"))
  {
    var opType := if Route(req.methodName) == Some(BuyRolls) then "buy_rolls" else "sell_rolls";
    assert Dispatch(reg, cl, node, now, sessionId, req, order) == RollsStep(reg, cl, req, opType);
  }

  /** `add_staking_key` without a secret key is refused with "Secret key
      required"; an array or object there throws. */
  lemma SecretKeyChecked(reg: Registry, cl: Client, node: Node, now: Int64, sessionId: string, req: BridgeRequest,
                         order: seq<string>)
    requires ServerState.IsListing(order, reg.devices.Keys)
    requires Route(req.methodName) == Some(AddStakingKey)
    ensures "secretKey" !in req.params ==>
      Dispatch(reg, cl, node, now, sessionId, req, order) == Success(Step(reg, cl.port, Refusal(req.id, "Secret key required")))
    ensures "secretKey" in req.params && (req.params["secretKey"].JArr? || req.params["secretKey"].JObj?) ==>
      Dispatch(reg, cl, node, now, sessionId, req, order) == Fail(CastMessage(req.params["secretKey"], "JsonPrimitive"))
  {
    assert Dispatch(reg, cl, node, now, sessionId, req, order) == AddStakingKeyStep(reg, cl, node, now, req);
  }

  /** `send_operations` without operations is refused with "Operations
      required"; anything but an array there throws. */
  lemma OperationsChecked(reg: Registry, cl: Client, node: Node, now: Int64, sessionId: string, req: BridgeRequest,
                          order: seq<string>)
    requires ServerState.IsListing(order, reg.devices.Keys)
    requires Route(req.methodName) == Some(SendOperations)
    ensures "operations" !in req.params ==>
      Dispatch(reg, cl, node, now, sessionId, req, order) == Success(Step(reg, cl.port, Refusal(req.id, "Operations required")))
    ensures "operations" in req.params && !req.params["operations"].JArr? ==>
      Dispatch(reg, cl, node, now, sessionId, req, order) == Fail(CastMessage(req.params["operations"], "JsonArray"))
  {
    assert Dispatch(reg, cl, node, now, sessionId, req, order) == SendOperationsStep(reg, cl, node, now, req);
  }

  /** `get_operations` without operation ids is refused with "Operation
      IDs required"; anything but an array there, or an array or object
      among the ids, throws. */
  lemma OperationIdsChecked(reg: Registry, cl: Client, node: Node, now: Int64, sessionId: string, req: BridgeRequest,
                            order: seq<string>)
    requires ServerState.IsListing(order, reg.devices.Keys)
    requires Route(req.methodName) == Some(GetOperations)
    ensures "operationIds" !in req.params ==>
      Dispatch(reg, cl, node, now, sessionId, req, order) == Success(Step(reg, cl.port, Refusal(req.id, "Operation IDs required")))
    ensures "operationIds" in req.params && !req.params["operationIds"].JArr? ==>
      Dispatch(reg, cl, node, now, sessionId, req, order) == Fail(CastMessage(req.params["operationIds"], "JsonArray"))
    ensures ("operationIds" in req.params && req.params["operationIds"].JArr?
             && Contents(req.params["operationIds"].items).Failure?) ==>
      Dispatch(reg, cl, node, now, sessionId, req, order).Failure?
  {
    assert Dispatch(reg, cl, node, now, sessionId, req, order) == OperationsStep(reg, cl, node, now, req);
  }

  // ---------------------------------------------------------------------
  // The device map and the published list.

  /** Every handler files a device under its own session id. */
  lemma DispatchKeyed(reg: Registry, cl: Client, node: Node, now: Int64, sessionId: string, req: BridgeRequest,
                      order: seq<string>)
    requires ServerState.IsListing(order, reg.devices.Keys)
    requires ServerState.Keyed(reg.devices)
    ensures var d := Dispatch(reg, cl, node, now, sessionId, req, order);
      d.Success? ==> ServerState.Keyed(d.value.registry.devices)
  {
    var d := Dispatch(reg, cl, node, now, sessionId, req, order);
    if d.Success? {
      match Route(req.methodName)
      case Some(Connect) =>
        var name := OptContent(req.params, "deviceName").value;
        var platform := OptContent(req.params, "platform").value;
        var wallet := OptContent(req.params, "walletAddress").value;
        var device := ConnectedDevice(sessionId, name.GetOr("Unknown"), platform.GetOr("Unknown"), now, wallet);
        assert d.value.registry.devices == reg.devices[sessionId := device];
      case Some(Disconnect) =>
        assert d.value.registry.devices.Keys <= reg.devices.Keys;
        assert forall k :: k in d.value.registry.devices ==> d.value.registry.devices[k] == reg.devices[k];
      case Some(GetStakingInfo) =>
        StakingInfoKeepsStep(reg, cl, node, now, sessionId, req, order);
      case _ =>
    }
  }

  /** What `get_staking_info` does to the registry: nothing, or the
      rebuild of the list after recording the info on the session's device. */
  lemma StakingInfoKeepsStep(reg: Registry, cl: Client, node: Node, now: Int64, sessionId: string, req: BridgeRequest,
                             order: seq<string>)
    requires ServerState.IsListing(order, reg.devices.Keys)
    requires ServerState.Keyed(reg.devices)
    ensures var d := StakingInfoStep(reg, cl, node, now, sessionId, req, order);
      d.Success? ==>
        d.value.registry == reg
        || (&& ServerState.Keyed(d.value.registry.devices)
            && ServerState.Consistent(d.value.registry)
            && d.value.registry.devices.Keys == reg.devices.Keys
            && d.value.registry.devices[sessionId].stakingInfo.Some?)
  {
    var d := StakingInfoStep(reg, cl, node, now, sessionId, req, order);
    if d.Success? && d.value.registry != reg {
      var address := OptContent(req.params, "address").value.value;
      var c := Rpc(node, cl.host, cl.port, now, "get_addresses", SingletonParams(address));
      var info := StakingOf(c, address);
      ServerState.RecordStakingConsistent(reg, sessionId, address, info.value, order);
    }
  }

  /** Every handler but a second `connect` on the same session keeps the
      published list in step with the device map. */
  lemma DispatchConsistent(reg: Registry, cl: Client, node: Node, now: Int64, sessionId: string, req: BridgeRequest,
                           order: seq<string>)
    requires ServerState.IsListing(order, reg.devices.Keys)
    requires ServerState.Keyed(reg.devices) && ServerState.Consistent(reg)
    requires Route(req.methodName) == Some(Connect) ==> sessionId !in reg.devices
    ensures var d := Dispatch(reg, cl, node, now, sessionId, req, order);
      d.Success? ==> ServerState.Consistent(d.value.registry)
  {
    var d := Dispatch(reg, cl, node, now, sessionId, req, order);
    if d.Success? {
      match Route(req.methodName)
      case Some(Connect) =>
        var name := OptContent(req.params, "deviceName").value;
        var platform := OptContent(req.params, "platform").value;
        var wallet := OptContent(req.params, "walletAddress").value;
        var device := ConnectedDevice(sessionId, name.GetOr("Unknown"), platform.GetOr("Unknown"), now, wallet);
        ServerState.ConnectFreshConsistent(reg, sessionId, device);
      case Some(Disconnect) =>
        ServerState.ForgetConsistent(reg, sessionId);
      case Some(GetStakingInfo) =>
        StakingInfoKeepsStep(reg, cl, node, now, sessionId, req, order);
      case _ =>
    }
  }

  /** A second `connect` on a session that already has a device leaves the
      old device in the published list next to the new one, while the map
      keeps only the new one. */
  lemma ReconnectDuplicates(reg: Registry, cl: Client, node: Node, now: Int64, sessionId: string, req: BridgeRequest)
    requires ServerState.Keyed(reg.devices) && ServerState.Consistent(reg)
    requires sessionId in reg.devices
    requires ConnectStep(reg, cl, node, now, sessionId, req).Success?
    ensures !ServerState.Consistent(ConnectStep(reg, cl, node, now, sessionId, req).value.registry)
  {
    var name := OptContent(req.params, "deviceName").value;
    var platform := OptContent(req.params, "platform").value;
    var wallet := OptContent(req.params, "walletAddress").value;
    var device := ConnectedDevice(sessionId, name.GetOr("Unknown"), platform.GetOr("Unknown"), now, wallet);
    ServerState.ReconnectInconsistent(reg, sessionId, device);
  }

  // ---------------------------------------------------------------------
  // What some handlers answer.

  /** `connect` always succeeds once its parameters are read: it files and
      announces the device, and reports the node as connected exactly
      when its status could be read, adding that status. */
  lemma ConnectAnswer(reg: Registry, cl: Client, node: Node, now: Int64, sessionId: string, req: BridgeRequest)
    requires ConnectStep(reg, cl, node, now, sessionId, req).Success?
    ensures var s := ConnectStep(reg, cl, node, now, sessionId, req).value;
      var status := StatusOf(Rpc(node, cl.host, cl.port, now, "get_status", EmptyParams), cl.host);
      && s.response.success && s.response.result.Some? && s.response.result.value.JObj?
      && var fields := s.response.result.value.fields;
      && fields["sessionId"] == Str(sessionId)
      && fields["nodeConnected"] == Bool(status.Success?)
      && ("nodeStatus" in fields <==> status.Success?)
      && sessionId in s.registry.devices
      && var d := s.registry.devices[sessionId];
      && d.id == sessionId && d.connectedAt == now
      && ("deviceName" !in req.params ==> d.name == "Unknown")
      && ("deviceName" in req.params && req.params["deviceName"].JPrim? ==> d.name == req.params["deviceName"].content)
      && ("platform" !in req.params ==> d.platform == "Unknown")
      && ("platform" in req.params && req.params["platform"].JPrim? ==> d.platform == req.params["platform"].content)
      && ("walletAddress" !in req.params ==> d.walletAddress == None)
      && ("walletAddress" in req.params && req.params["walletAddress"].JPrim? ==>
            d.walletAddress == Some(req.params["walletAddress"].content))
      && ("walletAddress" in req.params && req.params["walletAddress"].JNull? ==> d.walletAddress == Some("null"))
      && s.registry.events == reg.events + [ServerState.DeviceConnected(d)]
  {
    var name := OptContent(req.params, "deviceName").value;
    var platform := OptContent(req.params, "platform").value;
    var wallet := OptContent(req.params, "walletAddress").value;
    var device := ConnectedDevice(sessionId, name.GetOr("Unknown"), platform.GetOr("Unknown"), now, wallet);
    var c := Rpc(node, cl.host, cl.port, now, "get_status", EmptyParams);
    assert ConnectStep(reg, cl, node, now, sessionId, req).value
        == Step(ServerState.Connect(reg, sessionId, device), c.port, ConnectResponse(req.id, sessionId, StatusOf(c, cl.host)));
    ConnectResponseFields(req.id, sessionId, StatusOf(c, cl.host));
  }

  lemma ConnectResponseFields(id: string, sessionId: string, status: Result<NodeStatus>)
    requires status.Success? ==> status.value.connected
    ensures var r := ConnectResponse(id, sessionId, status);
      && r.result.Some? && r.result.value.JObj?
      && var fields := r.result.value.fields;
      && fields["sessionId"] == Str(sessionId)
      && fields["nodeConnected"] == Bool(status.Success?)
      && ("nodeStatus" in fields <==> status.Success?)
  {
  }

  /** A prepared roll operation reads back as what was asked for: its
      type, the address, the roll count and the fee (0.01 by default). */
  lemma RollsAnswer(reg: Registry, cl: Client, req: BridgeRequest, opType: string)
    requires RollsStep(reg, cl, req, opType).Success?
    requires RollsStep(reg, cl, req, opType).value.response.success
    ensures var m := RollsStep(reg, cl, req, opType).value.response.result.value.fields;
      && "address" in req.params && "rollCount" in req.params
      && ReadString(m, "type") == Success(opType)
      && ReadString(m, "address") == Success(Content(req.params["address"]).value)
      && ReadInt(m, "roll_count", IntMin, IntMax) == Success(OptInt(req.params, "rollCount").value.value)
      && ReadString(m, "fee") == Success(OptContent(req.params, "fee").value.GetOr("0.01"))
  {
    var address := OptContent(req.params, "address").value.value;
    var rollCount := OptInt(req.params, "rollCount").value.value;
    var fee := OptContent(req.params, "fee").value.GetOr("0.01");
    PrepareRollsReads(opType, address, rollCount as Int32, fee);
  }

  /** A poller tick records whether the node answered, broadcasts only
      when that changed, and keeps the last status when the node is down. */
  lemma TickRecords(reg: Registry, cl: Client, node: Node, now: Int64)
    ensures var first := Rpc(node, cl.host, cl.port, now, "get_status", EmptyParams);
      var (reg', port) := Tick(reg, cl, node, now);
      && reg'.state.nodeConnected == first.result.Success?
      && (first.result.Success? == reg.state.nodeConnected ==> reg'.sessions == reg.sessions)
      && (first.result.Failure? ==> reg'.state.nodeStatus == reg.state.nodeStatus && port == first.port)
      && reg'.devices == reg.devices && reg'.events == reg.events
  {
    var first := Rpc(node, cl.host, cl.port, now, "get_status", EmptyParams);
    if first.result.Success? {
      var second := Rpc(node, cl.host, first.port, now, "get_status", EmptyParams);
      ServerState.PollEdgeTriggered(reg, true, StatusOf(second, cl.host).ToOption());
    } else {
      ServerState.PollEdgeTriggered(reg, false, None);
    }
  }
}
