/** The messages exchanged between the wallet app and the agent over the
    bridge, the records they carry with their defaults, the method and event
    names, and the JSON form of each message. */
module BridgeProtocol {
  import opened Wrappers
  import opened Json

  /** A call from the wallet app; `methodName` is sent as "method". */
  datatype BridgeRequest = BridgeRequest(id: string, methodName: string, params: map<string, Json> := map[])

  /** The answer to one request. */
  datatype BridgeResponse = BridgeResponse(id: string, success: bool, result: Option<Json> := None, error: Option<string> := None)

  /** A message pushed to every open session; `eventType` is sent as "type". */
  datatype BridgeEvent = BridgeEvent(eventType: string, data: Json)

  datatype NodeStatus = NodeStatus(
    connected: bool,
    nodeIp: string,
    nodePort: Int32,
    version: Option<string> := None,
    networkVersion: Option<string> := None,
    currentCycle: Option<Int64> := None,
    currentPeriod: Option<Int64> := None,
    connectedPeers: Option<Int32> := None)

  datatype StakingInfo = StakingInfo(
    address: string,
    balance: string,
    candidateBalance: Option<string> := None,
    finalRolls: Int32,
    candidateRolls: Int32,
    activeRolls: Int32,
    stakingAddress: Option<string> := None,
    deferredCredits: string := "0")

  /** A roll purchase or sale; `opType` is "buy_rolls" or "sell_rolls". */
  datatype StakingOperation = StakingOperation(opType: string, rollCount: Int32, address: string, fee: string := "0.01")

  datatype StakingOperationResult = StakingOperationResult(success: bool, operationId: Option<string> := None, error: Option<string> := None)

  datatype ConnectedDevice = ConnectedDevice(
    id: string,
    name: string,
    platform: string,
    connectedAt: Int64,
    walletAddress: Option<string> := None,
    stakingInfo: Option<StakingInfo> := None)

  datatype BridgeConfig = BridgeConfig(
    nodeIp: string := "127.0.0.1",
    nodeRpcPort: Int32 := 33034,
    nodeGrpcPort: Int32 := 33035,
    bridgePort: Int32 := 8765,
    sessionTimeout: Int64 := 3600000)

  /** What the pairing QR code carries; `pairingType` is sent as "type". */
  datatype PairingData = PairingData(
    pairingType: string := "massa-agent",
    version: string := "1.0.0",
    host: string,
    port: Int32,
    sessionId: string,
    publicKey: string)

  /** The defaults a record gets when a field is not given. */
  lemma Defaults(id: string, name: string)
    ensures BridgeRequest(id, name).params == map[]
    ensures BridgeResponse(id, true).result == None && BridgeResponse(id, false).error == None
    ensures var c := BridgeConfig();
      c.nodeIp == "127.0.0.1" && c.nodeRpcPort == 33034 && c.nodeGrpcPort == 33035
      && c.bridgePort == 8765 && c.sessionTimeout == 3600000
    ensures var p := PairingData(host := id, port := 0, sessionId := id, publicKey := id);
      p.pairingType == "massa-agent" && p.version == "1.0.0"
    ensures var s := StakingInfo(id, id, finalRolls := 0, candidateRolls := 0, activeRolls := 0);
      s.deferredCredits == "0" && s.candidateBalance == None && s.stakingAddress == None
    ensures var d := ConnectedDevice(id, id, id, 0);
      d.walletAddress == None && d.stakingInfo == None
    ensures StakingOperation(id, 1, id).fee == "0.01"
  {
  }

  // ---------------------------------------------------------------------
  // The method and event names.

  /** The methods a request may name. */
  datatype Method =
    | Connect | Disconnect | Ping
    | GetNodeStatus | GetNetworkInfo
    | GetStakingInfo | BuyRolls | SellRolls | GetStakingAddresses
    | AddStakingKey | RemoveStakingKey | GetRewards
    | GetAddresses | GetOperations | SendOperations
  {
    function Name(): string {
      match this
      case Connect => "connect"
      case Disconnect => "disconnect"
      case Ping => "ping"
      case GetNodeStatus => "get_node_status"
      case GetNetworkInfo => "get_network_info"
      case GetStakingInfo => "get_staking_info"
      case BuyRolls => "buy_rolls"
      case SellRolls => "sell_rolls"
      case GetStakingAddresses => "get_staking_addresses"
      case AddStakingKey => "add_staking_key"
      case RemoveStakingKey => "remove_staking_key"
      case GetRewards => "get_rewards"
      case GetAddresses => "get_addresses"
      case GetOperations => "get_operations"
      case SendOperations => "send_operations"
    }
  }

  /** The method a name denotes, if any: only a method's own name denotes it. */
  function MethodNamed(name: string): (r: Option<Method>)
    ensures r.Some? ==> r.value.Name() == name
  {
    if name == "connect" then Some(Connect)
    else if name == "disconnect" then Some(Disconnect)
    else if name == "ping" then Some(Ping)
    else if name == "get_node_status" then Some(GetNodeStatus)
    else if name == "get_network_info" then Some(GetNetworkInfo)
    else if name == "get_staking_info" then Some(GetStakingInfo)
    else if name == "buy_rolls" then Some(BuyRolls)
    else if name == "sell_rolls" then Some(SellRolls)
    else if name == "get_staking_addresses" then Some(GetStakingAddresses)
    else if name == "add_staking_key" then Some(AddStakingKey)
    else if name == "remove_staking_key" then Some(RemoveStakingKey)
    else if name == "get_rewards" then Some(GetRewards)
    else if name == "get_addresses" then Some(GetAddresses)
    else if name == "get_operations" then Some(GetOperations)
    else if name == "send_operations" then Some(SendOperations)
    else None
  }

  /** A name denotes a method exactly when it is that method's name, so no
      two methods share a name. */
  lemma MethodNamesDistinct(name: string, m: Method, n: Method)
    ensures MethodNamed(name) == Some(m) <==> m.Name() == name
    ensures m.Name() == n.Name() ==> m == n
  {
    MethodNamedName(m);
    MethodNamedName(n);
  }

  lemma MethodNamedName(m: Method)
    ensures MethodNamed(m.Name()) == Some(m)
  {
    match m
    case Connect =>
    case Disconnect =>
    case Ping =>
    case GetNodeStatus =>
    case GetNetworkInfo =>
    case GetStakingInfo =>
    case BuyRolls =>
    case SellRolls =>
    case GetStakingAddresses =>
    case AddStakingKey =>
    case RemoveStakingKey =>
    case GetRewards =>
    case GetAddresses =>
    case GetOperations =>
    case SendOperations =>
  }

  /** The kinds of event pushed to the wallet app. */
  datatype EventKind = Connected | Disconnected | NodeStatusChanged | StakingUpdate | OperationConfirmed | ErrorEvent
  {
    function Name(): string {
      match this
      case Connected => "connected"
      case Disconnected => "disconnected"
      case NodeStatusChanged => "node_status_changed"
      case StakingUpdate => "staking_update"
      case OperationConfirmed => "operation_confirmed"
      case ErrorEvent => "error"
    }
  }

  /** The event kind a name denotes, if any. */
  function EventNamed(name: string): (r: Option<EventKind>)
    ensures r.Some? ==> r.value.Name() == name
  {
    if name == "connected" then Some(Connected)
    else if name == "disconnected" then Some(Disconnected)
    else if name == "node_status_changed" then Some(NodeStatusChanged)
    else if name == "staking_update" then Some(StakingUpdate)
    else if name == "operation_confirmed" then Some(OperationConfirmed)
    else if name == "error" then Some(ErrorEvent)
    else None
  }

  /** A name denotes an event kind exactly when it is that kind's name, so
      no two kinds share a name. */
  lemma EventNamesDistinct(name: string, a: EventKind, b: EventKind)
    ensures EventNamed(name) == Some(a) <==> a.Name() == name
    ensures a.Name() == b.Name() ==> a == b
  {
    assert EventNamed(a.Name()) == Some(a);
    assert EventNamed(b.Name()) == Some(b);
  }

  // ---------------------------------------------------------------------
  // Reading members of a JSON object.

  const RequestSerialName: string := "com.massapay.agent.bridge.BridgeRequest"

  function MissingField(key: string): string {
    "Field '" + key + "' is required for type with serial name '" + RequestSerialName + "', but it was missing"
  }

  function MissingFields(first: string, second: string): string {
    "Fields [" + first + ", " + second + "] are required for type with serial name '" + RequestSerialName
      + "', but they were missing"
  }

  /** The library's complaint about a member of the wrong shape. */
  function Malformed(key: string): string {
    "Unexpected JSON token at member '" + key + "'"
  }

  /** A string member that is present: it must be a quoted string. */
  function StringValue(j: Json, key: string): (r: Result<string>)
    ensures r.Success? <==> j.JPrim? && j.isString
    ensures r.Success? ==> r.value == j.content
  {
    if j.JPrim? && j.isString then Success(j.content) else Fail(Malformed(key))
  }

  /** A nullable string member: absent and null both read as null. */
  function ReadOptString(m: map<string, Json>, key: string): Result<Option<string>> {
    if key !in m || m[key].JNull? then Success(None)
    else
      var s :- StringValue(m[key], key);
      Success(Some(s))
  }

  function ReadString(m: map<string, Json>, key: string): Result<string> {
    if key !in m then Fail(MissingField(key)) else StringValue(m[key], key)
  }

  function ReadBool(m: map<string, Json>, key: string): Result<bool> {
    if key !in m then Fail(MissingField(key))
    else if m[key] == Bool(true) then Success(true)
    else if m[key] == Bool(false) then Success(false)
    else Fail(Malformed(key))
  }

  /** An integer member in [lo, hi]. */
  function ReadInt(m: map<string, Json>, key: string, lo: int, hi: int): (r: Result<int>)
    ensures r.Success? ==> lo <= r.value <= hi
  {
    if key !in m then Fail(MissingField(key))
    else if !m[key].JPrim? then Fail(Malformed(key))
    else
      match ParseInt(m[key].content, lo, hi)
      case Some(n) => Success(n)
      case None => Fail(Malformed(key))
  }

  /** A nullable integer member in [lo, hi]. */
  function ReadOptInt(m: map<string, Json>, key: string, lo: int, hi: int): (r: Result<Option<int>>)
    ensures r.Success? && r.value.Some? ==> lo <= r.value.value <= hi
  {
    if key !in m || m[key].JNull? then Success(None)
    else
      var n :- ReadInt(m, key, lo, hi);
      Success(Some(n))
  }

  function ReadOptInt32(m: map<string, Json>, key: string): Result<Option<Int32>> {
    var n :- ReadOptInt(m, key, IntMin, IntMax);
    match n case Some(v) => Success(Some(v as Int32)) case None => Success(None)
  }

  function ReadOptInt64(m: map<string, Json>, key: string): Result<Option<Int64>> {
    var n :- ReadOptInt(m, key, LongMin, LongMax);
    match n case Some(v) => Success(Some(v as Int64)) case None => Success(None)
  }

  function OptNum32(n: Option<Int32>): Json {
    match n case Some(v) => Num(v) case None => JNull
  }

  function OptNum64(n: Option<Int64>): Json {
    match n case Some(v) => Num(v) case None => JNull
  }

  lemma ReadStringOf(m: map<string, Json>, key: string, s: string)
    requires key in m && m[key] == Str(s)
    ensures ReadString(m, key) == Success(s) && ReadOptString(m, key) == Success(Some(s))
  {
  }

  lemma ReadOptStringOf(m: map<string, Json>, key: string, s: Option<string>)
    requires key in m && m[key] == OptStr(s)
    ensures ReadOptString(m, key) == Success(s)
  {
  }

  lemma ReadIntOf(m: map<string, Json>, key: string, n: int, lo: int, hi: int)
    requires key in m && m[key] == Num(n) && lo <= n <= hi
    ensures ReadInt(m, key, lo, hi) == Success(n)
  {
    ParseIntToString(n, lo, hi);
  }

  lemma ReadOptInt32Of(m: map<string, Json>, key: string, n: Option<Int32>)
    requires key in m && m[key] == OptNum32(n)
    ensures ReadOptInt32(m, key) == Success(n)
  {
    if n.Some? {
      ReadIntOf(m, key, n.value, IntMin, IntMax);
    }
  }

  lemma ReadOptInt64Of(m: map<string, Json>, key: string, n: Option<Int64>)
    requires key in m && m[key] == OptNum64(n)
    ensures ReadOptInt64(m, key) == Success(n)
  {
    if n.Some? {
      ReadIntOf(m, key, n.value, LongMin, LongMax);
    }
  }

  // ---------------------------------------------------------------------
  // Requests.

  function EncodeRequest(r: BridgeRequest): Json {
    JObj(map["id" := Str(r.id), "method" := Str(r.methodName), "params" := JObj(r.params)])
  }

  /** An object whose `id` and `method` are quoted strings and whose
      `params`, when present, is an object. */
  predicate RequestShaped(j: Json) {
    && j.JObj? && "id" in j.fields && "method" in j.fields
    && j.fields["id"].JPrim? && j.fields["id"].isString
    && j.fields["method"].JPrim? && j.fields["method"].isString
    && ("params" in j.fields ==> j.fields["params"].JObj?)
  }

  /** `decodeFromString<BridgeRequest>` on the parsed frame: `id` and
      `method` are required strings, `params` an optional object, and other
      members are ignored. Members of the wrong shape are reported before
      missing ones. */
  function DecodeRequest(j: Json): (r: Result<BridgeRequest>)
    ensures r.Success? <==> RequestShaped(j)
    ensures r.Success? ==> r.value.id == j.fields["id"].content && r.value.methodName == j.fields["method"].content
    ensures r.Success? && "params" !in j.fields ==> r.value.params == map[]
    ensures r.Success? && "params" in j.fields ==> r.value.params == j.fields["params"].fields
  {
    if !j.JObj? then Fail(Malformed("$"))
    else
      var m := j.fields;
      if "id" in m && !(m["id"].JPrim? && m["id"].isString) then Fail(Malformed("id"))
      else if "method" in m && !(m["method"].JPrim? && m["method"].isString) then Fail(Malformed("method"))
      else if "params" in m && !m["params"].JObj? then Fail(Malformed("params"))
      else if "id" !in m && "method" !in m then Fail(MissingFields("id", "method"))
      else if "id" !in m then Fail(MissingField("id"))
      else if "method" !in m then Fail(MissingField("method"))
      else
        var params := if "params" in m then m["params"].fields else map[];
        Success(BridgeRequest(m["id"].content, m["method"].content, params))
  }

  /** A request survives its JSON form. */
  lemma RequestRoundTrip(r: BridgeRequest)
    ensures DecodeRequest(EncodeRequest(r)) == Success(r)
  {
  }

  /** A request without `params` decodes with no parameters. */
  lemma DecodeRequestDefaultParams(id: string, methodName: string)
    ensures DecodeRequest(JObj(map["id" := Str(id), "method" := Str(methodName)]))
      == Success(BridgeRequest(id, methodName, map[]))
  {
  }

  /** Members other than id, method and params are ignored. */
  lemma DecodeRequestIgnoresUnknown(m: map<string, Json>, key: string, v: Json)
    requires key != "id" && key != "method" && key != "params"
    ensures DecodeRequest(JObj(m[key := v])) == DecodeRequest(JObj(m))
  {
    var m' := m[key := v];
    assert ("id" in m') == ("id" in m);
    assert ("method" in m') == ("method" in m);
    assert ("params" in m') == ("params" in m);
  }

  // ---------------------------------------------------------------------
  // Responses and events (encoded with defaults, nulls written out).

  function EncodeResponse(r: BridgeResponse): (j: Json)
    ensures j.JObj? && j.fields.Keys == {"id", "success", "result", "error"}
  {
    JObj(map[
      "id" := Str(r.id),
      "success" := Bool(r.success),
      "result" := r.result.GetOr(JNull),
      "error" := OptStr(r.error)])
  }

  function DecodeResponse(j: Json): Result<BridgeResponse> {
    var m :- AsObject(j);
    var id :- ReadString(m, "id");
    var success :- ReadBool(m, "success");
    var result := if "result" in m && !m["result"].JNull? then Some(m["result"]) else None;
    var error :- ReadOptString(m, "error");
    Success(BridgeResponse(id, success, result, error))
  }

  /** A present result of JSON null is written like an absent one. */
  function WithoutNullResult(r: BridgeResponse): BridgeResponse {
    if r.result == Some(JNull) then r.(result := None) else r
  }

  /** A response survives its JSON form, up to a null result. */
  lemma ResponseRoundTrip(r: BridgeResponse)
    ensures DecodeResponse(EncodeResponse(r)) == Success(WithoutNullResult(r))
  {
    var m := EncodeResponse(r).fields;
    ReadStringOf(m, "id", r.id);
    ReadOptStringOf(m, "error", r.error);
  }

  function EncodeEvent(e: BridgeEvent): (j: Json)
    ensures j.JObj? && j.fields.Keys == {"type", "data"}
  {
    JObj(map["type" := Str(e.eventType), "data" := e.data])
  }

  function DecodeEvent(j: Json): Result<BridgeEvent> {
    var m :- AsObject(j);
    var t :- ReadString(m, "type");
    if "data" in m then Success(BridgeEvent(t, m["data"])) else Fail(MissingField("data"))
  }

  /** An event survives its JSON form. */
  lemma EventRoundTrip(e: BridgeEvent)
    ensures DecodeEvent(EncodeEvent(e)) == Success(e)
  {
    ReadStringOf(EncodeEvent(e).fields, "type", e.eventType);
  }

  // ---------------------------------------------------------------------
  // Node status and staking info, as the server encodes them.

  function EncodeNodeStatus(s: NodeStatus): Json {
    JObj(map[
      "connected" := Bool(s.connected),
      "nodeIp" := Str(s.nodeIp),
      "nodePort" := Num(s.nodePort),
      "version" := OptStr(s.version),
      "networkVersion" := OptStr(s.networkVersion),
      "currentCycle" := OptNum64(s.currentCycle),
      "currentPeriod" := OptNum64(s.currentPeriod),
      "connectedPeers" := OptNum32(s.connectedPeers)])
  }

  function DecodeNodeStatus(j: Json): Result<NodeStatus> {
    var m :- AsObject(j);
    var connected :- ReadBool(m, "connected");
    var nodeIp :- ReadString(m, "nodeIp");
    var nodePort :- ReadInt(m, "nodePort", IntMin, IntMax);
    var version :- ReadOptString(m, "version");
    var networkVersion :- ReadOptString(m, "networkVersion");
    var currentCycle :- ReadOptInt64(m, "currentCycle");
    var currentPeriod :- ReadOptInt64(m, "currentPeriod");
    var connectedPeers :- ReadOptInt32(m, "connectedPeers");
    Success(NodeStatus(connected, nodeIp, nodePort, version, networkVersion, currentCycle, currentPeriod, connectedPeers))
  }

  lemma NodeStatusReadsHead(s: NodeStatus)
    ensures var m := EncodeNodeStatus(s).fields;
      ReadBool(m, "connected") == Success(s.connected)
      && ReadString(m, "nodeIp") == Success(s.nodeIp)
      && ReadInt(m, "nodePort", IntMin, IntMax) == Success(s.nodePort as int)
      && ReadOptString(m, "version") == Success(s.version)
  {
    var m := EncodeNodeStatus(s).fields;
    assert m["connected"] == Bool(s.connected);
    assert m["nodeIp"] == Str(s.nodeIp);
    assert m["nodePort"] == Num(s.nodePort);
    assert m["version"] == OptStr(s.version);
    ReadsHead(m, s);
  }

  lemma ReadsHead(m: map<string, Json>, s: NodeStatus)
    requires "connected" in m && m["connected"] == Bool(s.connected)
    requires "nodeIp" in m && m["nodeIp"] == Str(s.nodeIp)
    requires "nodePort" in m && m["nodePort"] == Num(s.nodePort)
    requires "version" in m && m["version"] == OptStr(s.version)
    ensures ReadBool(m, "connected") == Success(s.connected)
      && ReadString(m, "nodeIp") == Success(s.nodeIp)
      && ReadInt(m, "nodePort", IntMin, IntMax) == Success(s.nodePort as int)
      && ReadOptString(m, "version") == Success(s.version)
  {
    ReadStringOf(m, "nodeIp", s.nodeIp);
    ReadIntOf(m, "nodePort", s.nodePort, IntMin, IntMax);
    ReadOptStringOf(m, "version", s.version);
  }

  lemma NodeStatusReadsTail(s: NodeStatus)
    ensures var m := EncodeNodeStatus(s).fields;
      ReadOptString(m, "networkVersion") == Success(s.networkVersion)
      && ReadOptInt64(m, "currentCycle") == Success(s.currentCycle)
      && ReadOptInt64(m, "currentPeriod") == Success(s.currentPeriod)
      && ReadOptInt32(m, "connectedPeers") == Success(s.connectedPeers)
  {
    var m := EncodeNodeStatus(s).fields;
    ReadOptStringOf(m, "networkVersion", s.networkVersion);
    ReadOptInt64Of(m, "currentCycle", s.currentCycle);
    ReadOptInt64Of(m, "currentPeriod", s.currentPeriod);
    ReadOptInt32Of(m, "connectedPeers", s.connectedPeers);
  }

  /** A node status survives its JSON form. */
  lemma NodeStatusRoundTrip(s: NodeStatus)
    ensures DecodeNodeStatus(EncodeNodeStatus(s)) == Success(s)
  {
    NodeStatusReadsHead(s);
    NodeStatusReadsTail(s);
  }

  function EncodeStakingInfo(s: StakingInfo): Json {
    JObj(map[
      "address" := Str(s.address),
      "balance" := Str(s.balance),
      "candidateBalance" := OptStr(s.candidateBalance),
      "finalRolls" := Num(s.finalRolls),
      "candidateRolls" := Num(s.candidateRolls),
      "activeRolls" := Num(s.activeRolls),
      "stakingAddress" := OptStr(s.stakingAddress),
      "deferredCredits" := Str(s.deferredCredits)])
  }

  function DecodeStakingInfo(j: Json): Result<StakingInfo> {
    var m :- AsObject(j);
    var address :- ReadString(m, "address");
    var balance :- ReadString(m, "balance");
    var candidateBalance :- ReadOptString(m, "candidateBalance");
    var finalRolls :- ReadInt(m, "finalRolls", IntMin, IntMax);
    var candidateRolls :- ReadInt(m, "candidateRolls", IntMin, IntMax);
    var activeRolls :- ReadInt(m, "activeRolls", IntMin, IntMax);
    var stakingAddress :- ReadOptString(m, "stakingAddress");
    var deferredCredits := if "deferredCredits" in m then m["deferredCredits"] else Str("0");
    var credits :- StringValue(deferredCredits, "deferredCredits");
    Success(StakingInfo(address, balance, candidateBalance, finalRolls, candidateRolls, activeRolls, stakingAddress, credits))
  }

  lemma StakingInfoReadsHead(s: StakingInfo)
    ensures var m := EncodeStakingInfo(s).fields;
      ReadString(m, "address") == Success(s.address)
      && ReadString(m, "balance") == Success(s.balance)
      && ReadOptString(m, "candidateBalance") == Success(s.candidateBalance)
      && ReadInt(m, "finalRolls", IntMin, IntMax) == Success(s.finalRolls as int)
  {
    var m := EncodeStakingInfo(s).fields;
    ReadStringOf(m, "address", s.address);
    ReadStringOf(m, "balance", s.balance);
    ReadOptStringOf(m, "candidateBalance", s.candidateBalance);
    ReadIntOf(m, "finalRolls", s.finalRolls, IntMin, IntMax);
  }

  lemma StakingInfoReadsTail(s: StakingInfo)
    ensures var m := EncodeStakingInfo(s).fields;
      ReadInt(m, "candidateRolls", IntMin, IntMax) == Success(s.candidateRolls as int)
      && ReadInt(m, "activeRolls", IntMin, IntMax) == Success(s.activeRolls as int)
      && ReadOptString(m, "stakingAddress") == Success(s.stakingAddress)
      && "deferredCredits" in m && m["deferredCredits"] == Str(s.deferredCredits)
  {
    var m := EncodeStakingInfo(s).fields;
    ReadIntOf(m, "candidateRolls", s.candidateRolls, IntMin, IntMax);
    ReadIntOf(m, "activeRolls", s.activeRolls, IntMin, IntMax);
    ReadOptStringOf(m, "stakingAddress", s.stakingAddress);
  }

  /** Staking info survives its JSON form. */
  lemma StakingInfoRoundTrip(s: StakingInfo)
    ensures DecodeStakingInfo(EncodeStakingInfo(s)) == Success(s)
  {
    StakingInfoReadsHead(s);
    StakingInfoReadsTail(s);
  }
}
