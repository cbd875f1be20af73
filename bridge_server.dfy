/** The bridge server as an object: the sessions it holds open, the device
    filed for each, the state and events it publishes, and the node client
    its handlers drive. Each method is proved against the pure step of the
    ServerState and Dispatch modules. */
module Server {
  import opened Wrappers
  import opened Json
  import opened BridgeProtocol
  import opened NodeRpc
  import opened NodeClient
  import ServerState
  import opened Dispatch

  /** A frame from the wallet app: a text frame (its JSON, or why it is not
      JSON) and the time it is handled at, a close frame, or any other frame. */
  datatype Frame = TextFrame(text: Result<Json>, at: Int64) | CloseFrame | OtherFrame

  /** The position of the first close frame, or |frames|. */
  function CloseAt(frames: seq<Frame>): (k: nat)
    ensures k <= |frames|
    ensures forall j :: 0 <= j < k ==> !frames[j].CloseFrame?
    ensures k < |frames| ==> frames[k].CloseFrame?
  {
    if frames == [] || frames[0].CloseFrame? then 0
    else
      var rest := CloseAt(frames[1..]);
      assert forall j :: 1 <= j <= rest ==> frames[1..][j - 1] == frames[j];
      1 + rest
  }

  /** The number of text frames. */
  function TextCount(frames: seq<Frame>): nat {
    if frames == [] then 0
    else TextCount(frames[..|frames| - 1]) + if frames[|frames| - 1].TextFrame? then 1 else 0
  }

  /** A frame the server sends back: the JSON of a well-shaped response. */
  ghost predicate WellShapedReply(j: Json) {
    DecodeResponse(j).Success? && WellShaped(DecodeResponse(j).value)
  }

  /** What one frame of a connection does: a text frame is the `Handle`
      step of the registry and the client's state, for some listing of the
      device map; any other frame changes nothing. */
  ghost predicate FrameStep(node: Node, sessionId: string, f: Frame, before: Registry, cl: Client,
                            order: seq<string>, after: Registry, cl': Client)
  {
    if f.TextFrame? then
      && ServerState.IsListing(order, before.devices.Keys)
      && var s := Handle(before, cl, node, f.at, sessionId, f.text, order);
      && after == s.registry && cl' == cl.(port := s.port)
    else after == before && cl' == cl
  }

  /** The states a connection goes through over its first n frames: one
      registry and client state before each frame and one after the last,
      each the step of the frame before it. */
  ghost predicate Trace(node: Node, sessionId: string, frames: seq<Frame>, n: nat,
                        states: seq<Registry>, clients: seq<Client>, orders: seq<seq<string>>)
  {
    && n <= |frames| && |states| == n + 1 && |clients| == n + 1 && |orders| == n
    && forall i :: 0 <= i < n ==>
         FrameStep(node, sessionId, frames[i], states[i], clients[i], orders[i], states[i + 1], clients[i + 1])
  }

  /** A `connect` frame on a connection files the device under the session
      and announces it, unless reading its parameters throws. */
  lemma ConnectFrameFiles(node: Node, sessionId: string, f: Frame, before: Registry, cl: Client,
                          order: seq<string>, after: Registry, cl': Client)
    requires FrameStep(node, sessionId, f, before, cl, order, after, cl')
    requires f.TextFrame? && RequestOf(f.text).Success? && Route(RequestOf(f.text).value.methodName) == Some(Connect)
    ensures ConnectStep(before, cl, node, f.at, sessionId, RequestOf(f.text).value).Success? ==>
      && sessionId in after.devices && after.devices[sessionId].id == sessionId
      && after.devices[sessionId].connectedAt == f.at
      && after.events == before.events + [ServerState.DeviceConnected(after.devices[sessionId])]
  {
    var req := RequestOf(f.text).value;
    var d := Dispatch.Dispatch(before, cl, node, f.at, sessionId, req, order);
    assert d == ConnectStep(before, cl, node, f.at, sessionId, req);
    if d.Success? {
      ConnectAnswer(before, cl, node, f.at, sessionId, req);
      assert after == Send(d.value.registry, sessionId, EncodeResponse(d.value.response));
    }
  }

  /** The replies of a connection grow by those of its next frame. */
  lemma RepliesSnoc(frames: seq<Frame>, n: nat, replies: seq<Json>, sent: seq<Json>)
    requires n < |frames| && |replies| == TextCount(frames[..n])
    requires forall k :: 0 <= k < |replies| ==> WellShapedReply(replies[k])
    requires |sent| == (if frames[n].TextFrame? then 1 else 0) && forall k :: 0 <= k < |sent| ==> WellShapedReply(sent[k])
    ensures |replies + sent| == TextCount(frames[..n + 1])
    ensures forall k :: 0 <= k < |replies + sent| ==> WellShapedReply((replies + sent)[k])
  {
    assert frames[..n + 1][..n] == frames[..n] && frames[..n + 1][n] == frames[n];
  }

  /** A trace grows by the step of the next frame. */
  lemma TraceSnoc(node: Node, sessionId: string, frames: seq<Frame>, n: nat,
                  states: seq<Registry>, clients: seq<Client>, orders: seq<seq<string>>,
                  order: seq<string>, after: Registry, cl': Client)
    requires Trace(node, sessionId, frames, n, states, clients, orders) && n < |frames|
    requires FrameStep(node, sessionId, frames[n], states[n], clients[n], order, after, cl')
    ensures Trace(node, sessionId, frames, n + 1, states + [after], clients + [cl'], orders + [order])
  {
  }

  /** A well-shaped response is read back from its JSON as well shaped. */
  lemma ReplyReadsBack(r: BridgeResponse)
    requires WellShaped(r)
    ensures WellShapedReply(EncodeResponse(r))
  {
    ResponseRoundTrip(r);
  }

  /** `connectedDevices.values.toList()`: the devices of a map, in the
      order its keys are visited. */
  method ValuesList(m: map<string, ConnectedDevice>) returns (list: seq<ConnectedDevice>, ghost order: seq<string>)
    ensures ServerState.IsListing(order, m.Keys)
    ensures |list| == |order| && forall i :: 0 <= i < |order| ==> order[i] in m && list[i] == m[order[i]]
  {
    var keys := m.Keys;
    list := [];
    order := [];
    while keys != {}
      invariant keys <= m.Keys
      invariant forall k :: k in m.Keys <==> k in keys || k in order
      invariant forall k :: k in order ==> k !in keys
      invariant ServerState.Distinct(order)
      invariant |list| == |order| && forall i :: 0 <= i < |order| ==> order[i] in m && list[i] == m[order[i]]
      decreases |keys|
    {
      var k :| k in keys;
      list := list + [m[k]];
      order := order + [k];
      keys := keys - {k};
    }
  }

  class BridgeServer {
    const config: BridgeConfig
    const nodeClient: MassaNodeClient
    /** Whether the WebSocket server is listening. */
    var running: bool
    /** The open sessions, with the frames sent on each so far. */
    var sessions: map<string, seq<Json>>
    var connectedDevices: map<string, ConnectedDevice>
    var serverState: ServerState.BridgeServerState
    var events: seq<ServerState.BridgeServerEvent>
    var currentSessionId: string

    function Snapshot(): Registry
      reads this
    {
      ServerState.Registry(running, sessions, connectedDevices, serverState, events)
    }

    function ClientState(): Client
      reads nodeClient
    {
      Client(nodeClient.nodeIp, nodeClient.detectedPort, nodeClient.nodePassword)
    }

    /** The client's port is a public one, and each device is filed under
        its own session id. */
    ghost predicate Valid()
      reads this, nodeClient
    {
      nodeClient.Valid() && ServerState.Keyed(connectedDevices)
    }

    /** A handler did what its step says: on an exception nothing changed,
        otherwise the registry and the client's port are the step's. */
    ghost predicate Performed(d: Result<Step>, r: Result<BridgeResponse>, before: Registry, port: Option<Int32>)
      reads this, nodeClient
    {
      match d
      case Failure(msg) => r == Failure(msg) && Snapshot() == before && nodeClient.detectedPort == port
      case Success(s) => r == Success(s.response) && Snapshot() == s.registry && nodeClient.detectedPort == s.port
    }

    /** A server for `config`; `sessionId` is the first pairing session id. */
    constructor (config: BridgeConfig, sessionId: string)
      ensures this.config == config && currentSessionId == sessionId
      ensures Snapshot() == ServerState.Initial()
      ensures fresh(nodeClient) && nodeClient.nodeIp == config.nodeIp
      ensures nodeClient.detectedPort == None && nodeClient.nodePassword == DefaultPassword
      ensures Valid()
    {
      this.config := config;
      nodeClient := new MassaNodeClient(config.nodeIp);
      running := false;
      sessions := map[];
      connectedDevices := map[];
      serverState := ServerState.BridgeServerState();
      events := [];
      currentSessionId := sessionId;
    }

    /** `start`; `outcome` is the local address once listening, or the
        exception binding the port raised. */
    method Start(outcome: Result<string>)
      requires Valid()
      modifies this
      ensures Valid()
      ensures Snapshot() == ServerState.Start(old(Snapshot()), config.bridgePort, outcome)
      ensures currentSessionId == old(currentSessionId)
    {
      if running {
        return;
      }
      match outcome {
        case Success(localIp) =>
          running := true;
          serverState := serverState.(isRunning := true, host := localIp, port := config.bridgePort);
          events := events + [ServerState.Started(localIp, config.bridgePort)];
        case Failure(msg) =>
          events := events + [ServerState.Error("Failed to start server: " + msg.GetOr("null"))];
      }
    }

    method Stop()
      requires Valid()
      modifies this
      ensures Valid()
      ensures Snapshot() == ServerState.Stop(old(Snapshot()))
      ensures currentSessionId == old(currentSessionId)
    {
      running := false;
      serverState := serverState.(isRunning := false);
      events := events + [ServerState.Stopped];
    }

    /** Closes the session and forgets its device, if it has one. */
    method Teardown(sessionId: string)
      requires Valid()
      modifies this
      ensures Valid()
      ensures Snapshot() == ServerState.Teardown(old(Snapshot()), sessionId)
      ensures currentSessionId == old(currentSessionId)
    {
      ghost var closed := Snapshot().(sessions := sessions - {sessionId});
      sessions := sessions - {sessionId};
      assert Snapshot() == closed;
      if sessionId in connectedDevices {
        var device := connectedDevices[sessionId];
        connectedDevices := connectedDevices - {sessionId};
        serverState := serverState.(connectedDevices := ServerState.RemoveFirst(serverState.connectedDevices, device));
        events := events + [ServerState.DeviceDisconnected(device)];
        assert Snapshot() == ServerState.ForgetDevice(closed, sessionId);
      } else {
        assert ServerState.ForgetDevice(closed, sessionId) == closed;
      }
    }

    method DisconnectDevice(deviceId: string)
      requires Valid()
      modifies this
      ensures Valid()
      ensures Snapshot() == ServerState.DisconnectDevice(old(Snapshot()), deviceId)
      ensures currentSessionId == old(currentSessionId)
    {
      if deviceId in connectedDevices {
        Teardown(deviceId);
      }
    }

    /** Closes every session that has a device, in the order the device map
        is visited (`order`). */
    method DisconnectAllDevices() returns (ghost order: seq<string>)
      requires Valid()
      modifies this
      ensures Valid()
      ensures ServerState.IsListing(order, old(connectedDevices).Keys)
      ensures Snapshot() == ServerState.DisconnectAll(old(Snapshot()), order)
      ensures currentSessionId == old(currentSessionId)
    {
      var remaining := connectedDevices.Keys;
      order := [];
      while remaining != {}
        invariant Valid() && currentSessionId == old(currentSessionId)
        invariant remaining <= old(connectedDevices).Keys
        invariant forall k :: k in old(connectedDevices).Keys <==> k in remaining || k in order
        invariant forall k :: k in order ==> k !in remaining
        invariant ServerState.Distinct(order)
        invariant Snapshot() == ServerState.DisconnectAll(old(Snapshot()), order)
        decreases |remaining|
      {
        var sessionId :| sessionId in remaining;
        ServerState.DisconnectAllSnoc(old(Snapshot()), order, sessionId);
        Teardown(sessionId);
        order := order + [sessionId];
        remaining := remaining - {sessionId};
      }
    }

    /** `broadcastEvent`: the event's JSON goes out on every open session. */
    method Broadcast(event: BridgeEvent)
      requires Valid()
      modifies this
      ensures Valid()
      ensures Snapshot() == ServerState.Broadcast(old(Snapshot()), event)
      ensures currentSessionId == old(currentSessionId)
    {
      var frame := EncodeEvent(event);
      sessions := map s | s in sessions :: sessions[s] + [frame];
    }

    /** One tick of the node status poller. */
    method PollTick(node: Node, now: Int64)
      requires Valid()
      modifies this, nodeClient
      ensures Valid()
      ensures Snapshot() == Tick(old(Snapshot()), old(ClientState()), node, now).0
      ensures nodeClient.detectedPort == Tick(old(Snapshot()), old(ClientState()), node, now).1
      ensures nodeClient.nodePassword == old(nodeClient.nodePassword) && currentSessionId == old(currentSessionId)
    {
      ghost var before := Snapshot();
      ghost var cl := ClientState();
      ghost var first := Rpc(node, cl.host, cl.port, now, "get_status", EmptyParams);
      var connected := nodeClient.IsNodeConnected(node, now);
      RecordReading(connected);
      ghost var read := Snapshot();
      if connected {
        ghost var second := Rpc(node, cl.host, first.port, now, "get_status", EmptyParams);
        var status := nodeClient.GetNodeStatus(node, now);
        assert status == StatusOf(second, cl.host);
        if status.Success? {
          serverState := serverState.(nodeStatus := Some(status.value));
        }
        assert Snapshot() == ServerState.Poll(before, true, status.ToOption());
        assert Tick(before, cl, node, now) == (ServerState.Poll(before, true, status.ToOption()), second.port);
      } else {
        assert Snapshot() == read == ServerState.Poll(before, false, None);
        assert Tick(before, cl, node, now) == (ServerState.Poll(before, false, None), first.port);
      }
    }

    /** The poller's reading of the node, broadcast when it changed. */
    method RecordReading(connected: bool)
      requires Valid()
      modifies this
      ensures Valid()
      ensures Snapshot() == ServerState.Reading(old(Snapshot()), connected)
      ensures currentSessionId == old(currentSessionId)
    {
      if connected != serverState.nodeConnected {
        serverState := serverState.(nodeConnected := connected);
        Broadcast(ServerState.StatusChanged(connected));
      }
    }

    /** The pairing data for a QR code; `newSessionId` is a fresh id and
        `now` the clock in milliseconds. */
    method GeneratePairingData(newSessionId: string, now: Int64) returns (p: PairingData)
      modifies this
      ensures currentSessionId == newSessionId && Snapshot() == old(Snapshot())
      ensures p.sessionId == newSessionId && p.host == serverState.host && p.port == config.bridgePort
      ensures p.pairingType == "massa-agent" && p.version == "1.0.0" && p.publicKey == "pk_" + IntToString(now)
    {
      currentSessionId := newSessionId;
      p := PairingData(host := serverState.host, port := config.bridgePort, sessionId := currentSessionId,
                       publicKey := "pk_" + IntToString(now));
    }

    method UpdateNodeConfig(nodeIp: string, rpcPort: Int32)
      requires Valid()
      modifies this
      ensures Valid()
      ensures Snapshot() == ServerState.UpdateNodeConfig(old(Snapshot()), nodeIp, rpcPort)
      ensures currentSessionId == old(currentSessionId)
    {
      serverState := serverState.(nodeIp := nodeIp, nodePort := rpcPort);
    }

    // -------------------------------------------------------------------
    // The handlers that call the node or change the registry.

    method HandleConnect(node: Node, now: Int64, sessionId: string, req: BridgeRequest) returns (r: Result<BridgeResponse>)
      requires Valid()
      modifies this, nodeClient
      ensures Valid()
      ensures Performed(ConnectStep(old(Snapshot()), old(ClientState()), node, now, sessionId, req), r,
                        old(Snapshot()), old(nodeClient.detectedPort))
      ensures nodeClient.nodePassword == old(nodeClient.nodePassword) && currentSessionId == old(currentSessionId)
    {
      var name := OptContent(req.params, "deviceName");
      if name.Failure? {
        return Failure(name.message);
      }
      var platform := OptContent(req.params, "platform");
      if platform.Failure? {
        return Failure(platform.message);
      }
      var wallet := OptContent(req.params, "walletAddress");
      if wallet.Failure? {
        return Failure(wallet.message);
      }
      var device := ConnectedDevice(sessionId, name.value.GetOr("Unknown"), platform.value.GetOr("Unknown"), now, wallet.value);
      FileDevice(sessionId, device);
      ghost var c := Rpc(node, nodeClient.nodeIp, nodeClient.detectedPort, now, "get_status", EmptyParams);
      var status := nodeClient.GetNodeStatus(node, now);
      assert status == StatusOf(c, nodeClient.nodeIp) && nodeClient.detectedPort == c.port;
      r := Success(ConnectResponse(req.id, sessionId, status));
    }

    /** A session's device is filed in the map and appended to the
        published list, and its arrival announced. */
    method FileDevice(sessionId: string, device: ConnectedDevice)
      requires Valid() && device.id == sessionId
      modifies this
      ensures Valid()
      ensures Snapshot() == ServerState.Connect(old(Snapshot()), sessionId, device)
      ensures currentSessionId == old(currentSessionId)
    {
      connectedDevices := connectedDevices[sessionId := device];
      serverState := serverState.(connectedDevices := serverState.connectedDevices + [device]);
      events := events + [ServerState.DeviceConnected(device)];
    }

    method HandleDisconnect(sessionId: string) returns (r: BridgeResponse)
      requires Valid()
      modifies this
      ensures Valid()
      ensures Snapshot() == ServerState.Disconnect(old(Snapshot()), sessionId)
      ensures r == BridgeResponse("disconnect", true)
      ensures currentSessionId == old(currentSessionId)
    {
      if sessionId in connectedDevices {
        var device := connectedDevices[sessionId];
        connectedDevices := connectedDevices - {sessionId};
        serverState := serverState.(connectedDevices := ServerState.RemoveFirst(serverState.connectedDevices, device));
        events := events + [ServerState.DeviceDisconnected(device)];
      }
      r := BridgeResponse("disconnect", true);
    }

    method HandleGetNodeStatus(node: Node, now: Int64, req: BridgeRequest) returns (r: BridgeResponse)
      requires Valid()
      modifies nodeClient
      ensures Valid()
      ensures var s := NodeStatusStep(old(Snapshot()), old(ClientState()), node, now, req);
        r == s.response && nodeClient.detectedPort == s.port
      ensures nodeClient.nodePassword == old(nodeClient.nodePassword)
    {
      var status := nodeClient.GetNodeStatus(node, now);
      r := Answered(req.id, StatusJson(status));
    }

    method HandleGetNetworkInfo(node: Node, now: Int64, req: BridgeRequest) returns (r: BridgeResponse)
      requires Valid()
      modifies nodeClient
      ensures Valid()
      ensures var s := NetworkInfoStep(old(Snapshot()), old(ClientState()), node, now, req);
        r == s.response && nodeClient.detectedPort == s.port
      ensures nodeClient.nodePassword == old(nodeClient.nodePassword)
    {
      var info := nodeClient.GetNetworkInfo(node, now);
      r := Answered(req.id, info);
    }

    method HandleGetStakingInfo(node: Node, now: Int64, sessionId: string, req: BridgeRequest)
      returns (r: Result<BridgeResponse>, ghost order: seq<string>)
      requires Valid()
      modifies this, nodeClient
      ensures Valid()
      ensures ServerState.IsListing(order, old(connectedDevices).Keys)
      ensures Performed(StakingInfoStep(old(Snapshot()), old(ClientState()), node, now, sessionId, req, order), r,
                        old(Snapshot()), old(nodeClient.detectedPort))
      ensures nodeClient.nodePassword == old(nodeClient.nodePassword) && currentSessionId == old(currentSessionId)
    {
      order := ServerState.ListingOf(connectedDevices.Keys);
      var address := OptContent(req.params, "address");
      if address.Failure? {
        return Failure(address.message), order;
      }
      if address.value.None? {
        return Success(Refusal(req.id, AddressRequired)), order;
      }
      var info := nodeClient.GetStakingInfo(node, now, address.value.value);
      if info.Success? && sessionId in connectedDevices {
        order := RecordStaking(sessionId, address.value.value, info.value);
      }
      r := Success(Answered(req.id, StakingJson(info)));
    }

    /** The session's device records the address and its staking info, and
        the published list is rebuilt from the devices. */
    method RecordStaking(sessionId: string, address: string, info: StakingInfo) returns (ghost order: seq<string>)
      requires Valid() && sessionId in connectedDevices
      modifies this
      ensures Valid()
      ensures ServerState.IsListing(order, old(connectedDevices).Keys)
      ensures Snapshot() == ServerState.RecordStaking(old(Snapshot()), sessionId, address, info, order)
      ensures currentSessionId == old(currentSessionId)
    {
      ghost var before := Snapshot();
      var device := connectedDevices[sessionId];
      connectedDevices := connectedDevices[sessionId := device.(stakingInfo := Some(info), walletAddress := Some(address))];
      var list;
      list, order := ValuesList(connectedDevices);
      serverState := serverState.(connectedDevices := list);
      ServerState.RecordStakingConsistent(before, sessionId, address, info, order);
    }

    method HandleGetStakingAddresses(node: Node, now: Int64, req: BridgeRequest) returns (r: BridgeResponse)
      ensures r == StakingAddressesStep(Snapshot(), ClientState(), node, now, req).response
    {
      var addresses := nodeClient.GetStakingAddressesPrivate(node, now);
      r := Answered(req.id, StringsJson(addresses));
    }

    method HandleSendOperations(node: Node, now: Int64, req: BridgeRequest) returns (r: Result<BridgeResponse>)
      requires Valid()
      modifies nodeClient
      ensures Valid()
      ensures Performed(SendOperationsStep(old(Snapshot()), old(ClientState()), node, now, req), r,
                        old(Snapshot()), old(nodeClient.detectedPort))
      ensures nodeClient.nodePassword == old(nodeClient.nodePassword)
    {
      var operations := OptArray(req.params, "operations");
      if operations.Failure? {
        return Failure(operations.message);
      }
      if operations.value.None? {
        return Success(Refusal(req.id, "Operations required"));
      }
      var ids := nodeClient.SendOperations(node, now, operations.value.value);
      r := Success(Answered(req.id, StringsJson(ids)));
    }

    method HandleGetOperations(node: Node, now: Int64, req: BridgeRequest) returns (r: Result<BridgeResponse>)
      requires Valid()
      modifies nodeClient
      ensures Valid()
      ensures Performed(OperationsStep(old(Snapshot()), old(ClientState()), node, now, req), r,
                        old(Snapshot()), old(nodeClient.detectedPort))
      ensures nodeClient.nodePassword == old(nodeClient.nodePassword)
    {
      var items := OptArray(req.params, "operationIds");
      if items.Failure? {
        return Failure(items.message);
      }
      if items.value.None? {
        return Success(Refusal(req.id, "Operation IDs required"));
      }
      var ids := Contents(items.value.value);
      if ids.Failure? {
        return Failure(ids.message);
      }
      var operations := nodeClient.GetOperations(node, now, ids.value);
      r := Success(Answered(req.id, operations));
    }

    method HandleAddStakingKey(node: Node, now: Int64, req: BridgeRequest) returns (r: Result<BridgeResponse>)
      ensures var d := AddStakingKeyStep(Snapshot(), ClientState(), node, now, req);
        if d.Success? then r == Success(d.value.response) else r == Failure(d.message)
    {
      var secretKey := OptContent(req.params, "secretKey");
      if secretKey.Failure? {
        return Failure(secretKey.message);
      }
      if secretKey.value.None? {
        return Success(Refusal(req.id, "Secret key required"));
      }
      var added := nodeClient.AddStakingSecretKey(node, now, secretKey.value.value);
      if added.Failure? {
        return Success(Refusal(req.id, "Failed to register: " + added.message.GetOr(UnknownError)));
      }
      var listed := nodeClient.GetStakingAddressesPrivate(node, now);
      var addresses := if listed.Success? then listed.value else [];
      r := Success(BridgeResponse(req.id, true, result := Some(JObj(map[
        "success" := Bool(true),
        "message" := Str("Staking key registered on node"),
        "stakingAddresses" := StrArray(addresses)]))));
    }

    method HandleRemoveStakingKey(node: Node, now: Int64, req: BridgeRequest) returns (r: Result<BridgeResponse>)
      ensures var d := RemoveStakingKeyStep(Snapshot(), ClientState(), node, now, req);
        if d.Success? then r == Success(d.value.response) else r == Failure(d.message)
    {
      var address := OptContent(req.params, "address");
      if address.Failure? {
        return Failure(address.message);
      }
      if address.value.None? {
        return Success(Refusal(req.id, AddressRequired));
      }
      var removed := nodeClient.RemoveStakingAddress(node, now, address.value.value);
      if removed.Failure? {
        return Success(Refusal(req.id, "Failed: " + removed.message.GetOr(UnknownError)));
      }
      r := Success(BridgeResponse(req.id, true, result := Some(JObj(map[
        "success" := Bool(true),
        "message" := Str("Staking stopped for " + address.value.value)]))));
    }

    // -------------------------------------------------------------------
    // Messages and connections.

    /** The handler a request's method selects; pure handlers are the
        Dispatch functions themselves. */
    method HandleRequest(node: Node, now: Int64, sessionId: string, req: BridgeRequest)
      returns (r: Result<BridgeResponse>, ghost order: seq<string>)
      requires Valid()
      modifies this, nodeClient
      ensures Valid()
      ensures ServerState.IsListing(order, old(connectedDevices).Keys)
      ensures Performed(Dispatch.Dispatch(old(Snapshot()), old(ClientState()), node, now, sessionId, req, order), r,
                        old(Snapshot()), old(nodeClient.detectedPort))
      ensures nodeClient.nodePassword == old(nodeClient.nodePassword) && currentSessionId == old(currentSessionId)
    {
      order := ServerState.ListingOf(connectedDevices.Keys);
      var route := Route(req.methodName);
      if route.None? {
        return Success(Refusal(req.id, "Unknown method: " + req.methodName)), order;
      }
      match route.value {
        case Connect =>
          r := HandleConnect(node, now, sessionId, req);
        case Disconnect =>
          var resp := HandleDisconnect(sessionId);
          r := Success(resp);
        case Ping =>
          r := Success(PingStep(Snapshot(), ClientState(), now, req).response);
        case GetNodeStatus =>
          var resp := HandleGetNodeStatus(node, now, req);
          r := Success(resp);
        case GetNetworkInfo =>
          var resp := HandleGetNetworkInfo(node, now, req);
          r := Success(resp);
        case GetStakingInfo =>
          r, order := HandleGetStakingInfo(node, now, sessionId, req);
        case BuyRolls =>
          var d := RollsStep(Snapshot(), ClientState(), req, "buy_rolls");
          r := if d.Success? then Success(d.value.response) else Failure(d.message);
        case SellRolls =>
          var d := RollsStep(Snapshot(), ClientState(), req, "sell_rolls");
          r := if d.Success? then Success(d.value.response) else Failure(d.message);
        case GetStakingAddresses =>
          var resp := HandleGetStakingAddresses(node, now, req);
          r := Success(resp);
        case AddStakingKey =>
          r := HandleAddStakingKey(node, now, req);
        case RemoveStakingKey =>
          r := HandleRemoveStakingKey(node, now, req);
        case GetRewards =>
          var d := RewardsStep(Snapshot(), ClientState(), req);
          r := if d.Success? then Success(d.value.response) else Failure(d.message);
        case SendOperations =>
          r := HandleSendOperations(node, now, req);
        case GetOperations =>
          r := HandleGetOperations(node, now, req);
        case GetAddresses =>
          assert false;
      }
    }

    /** `handleMessage`: reads the request, runs its handler, and sends the
        response (an "error" response when either step throws). */
    method HandleMessage(node: Node, now: Int64, sessionId: string, text: Result<Json>)
      returns (resp: BridgeResponse, ghost order: seq<string>)
      requires Valid()
      modifies this, nodeClient
      ensures Valid()
      ensures ServerState.IsListing(order, old(connectedDevices).Keys)
      ensures var s := Handle(old(Snapshot()), old(ClientState()), node, now, sessionId, text, order);
        Snapshot() == s.registry && nodeClient.detectedPort == s.port && resp == s.response
      ensures nodeClient.nodePassword == old(nodeClient.nodePassword) && currentSessionId == old(currentSessionId)
    {
      var request := RequestOf(text);
      var handled: Result<BridgeResponse>;
      if request.Failure? {
        handled := Failure(request.message);
        order := ServerState.ListingOf(connectedDevices.Keys);
      } else {
        handled, order := HandleRequest(node, now, sessionId, request.value);
      }
      resp := if handled.Success? then handled.value else BridgeResponse("error", false, error := handled.message);
      if sessionId in sessions {
        sessions := sessions[sessionId := sessions[sessionId] + [EncodeResponse(resp)]];
      }
    }

    /** One text frame on an open session: exactly one well-shaped response
        is sent back on it, and on no other session. */
    method Answer(node: Node, now: Int64, sessionId: string, text: Result<Json>)
      returns (resp: BridgeResponse, ghost order: seq<string>)
      requires Valid() && sessionId in sessions
      modifies this, nodeClient
      ensures Valid()
      ensures ServerState.IsListing(order, old(connectedDevices).Keys)
      ensures var s := Handle(old(Snapshot()), old(ClientState()), node, now, sessionId, text, order);
        Snapshot() == s.registry && ClientState() == old(ClientState()).(port := s.port) && resp == s.response
      ensures sessions == old(sessions)[sessionId := old(sessions)[sessionId] + [EncodeResponse(resp)]]
      ensures WellShapedReply(EncodeResponse(resp))
      ensures running == old(running) && old(events) <= events
      ensures nodeClient.nodePassword == old(nodeClient.nodePassword) && currentSessionId == old(currentSessionId)
    {
      ghost var before := Snapshot();
      ghost var cl := ClientState();
      resp, order := HandleMessage(node, now, sessionId, text);
      HandleReplies(before, cl, node, now, sessionId, text, order);
      ReplyReadsBack(resp);
    }

    /** `handleConnection`: opens a session, answers each text frame up to
        the first close frame, then closes the session and forgets its
        device. Returns the frames sent on the session; `served` is the
        state just before the close, reached from the opened session by the
        frames' steps (`states`). */
    method HandleConnection(node: Node, sessionId: string, frames: seq<Frame>)
      returns (replies: seq<Json>, ghost served: Registry,
               ghost states: seq<Registry>, ghost clients: seq<Client>, ghost orders: seq<seq<string>>)
      requires Valid()
      modifies this, nodeClient
      ensures Valid()
      ensures Trace(node, sessionId, frames, CloseAt(frames), states, clients, orders)
      ensures states[0] == old(Snapshot()).(sessions := old(sessions)[sessionId := []]) && clients[0] == old(ClientState())
      ensures served == states[CloseAt(frames)] && ClientState() == clients[CloseAt(frames)]
      ensures sessionId in served.sessions && replies == served.sessions[sessionId]
      ensures Snapshot() == ServerState.Teardown(served, sessionId)
      ensures sessionId !in sessions && sessionId !in connectedDevices
      ensures |replies| == TextCount(frames[..CloseAt(frames)])
      ensures forall i :: 0 <= i < |replies| ==> WellShapedReply(replies[i])
      ensures forall s :: s in old(sessions) && s != sessionId ==> s in sessions && sessions[s] == old(sessions)[s]
      ensures running == old(running) && old(events) <= events
      ensures nodeClient.nodePassword == old(nodeClient.nodePassword) && currentSessionId == old(currentSessionId)
    {
      sessions := sessions[sessionId := []];
      states, clients, orders := Serve(node, sessionId, frames);
      served := Snapshot();
      replies := sessions[sessionId];
      Teardown(sessionId);
    }

    /** One frame of an open session: a text frame is answered, any other
        frame is ignored. `sent` is what goes out on the session. */
    method ServeFrame(node: Node, sessionId: string, f: Frame) returns (sent: seq<Json>, ghost order: seq<string>)
      requires Valid() && sessionId in sessions
      modifies this, nodeClient
      ensures Valid() && sessionId in sessions
      ensures FrameStep(node, sessionId, f, old(Snapshot()), old(ClientState()), order, Snapshot(), ClientState())
      ensures sessions[sessionId] == old(sessions)[sessionId] + sent
      ensures |sent| == (if f.TextFrame? then 1 else 0) && forall k :: 0 <= k < |sent| ==> WellShapedReply(sent[k])
      ensures forall s :: s in old(sessions) && s != sessionId ==> s in sessions && sessions[s] == old(sessions)[s]
      ensures running == old(running) && old(events) <= events
      ensures nodeClient.nodePassword == old(nodeClient.nodePassword) && currentSessionId == old(currentSessionId)
    {
      order := [];
      sent := [];
      if f.TextFrame? {
        var resp;
        resp, order := Answer(node, f.at, sessionId, f.text);
        sent := [EncodeResponse(resp)];
      }
    }

    /** The frames of an open session, answered in order until the first
        close frame; only this session's frames grow. Each frame's effect is
        its `Handle` step, recorded in `states` and `clients`. */
    method Serve(node: Node, sessionId: string, frames: seq<Frame>)
      returns (ghost states: seq<Registry>, ghost clients: seq<Client>, ghost orders: seq<seq<string>>)
      requires Valid() && sessionId in sessions && sessions[sessionId] == []
      modifies this, nodeClient
      ensures Valid() && sessionId in sessions
      ensures Trace(node, sessionId, frames, CloseAt(frames), states, clients, orders)
      ensures states[0] == old(Snapshot()) && clients[0] == old(ClientState())
      ensures Snapshot() == states[CloseAt(frames)] && ClientState() == clients[CloseAt(frames)]
      ensures |sessions[sessionId]| == TextCount(frames[..CloseAt(frames)])
      ensures forall k :: 0 <= k < |sessions[sessionId]| ==> WellShapedReply(sessions[sessionId][k])
      ensures forall s :: s in old(sessions) && s != sessionId ==> s in sessions && sessions[s] == old(sessions)[s]
      ensures running == old(running) && old(events) <= events
      ensures nodeClient.nodePassword == old(nodeClient.nodePassword) && currentSessionId == old(currentSessionId)
    {
      var i := 0;
      states, clients, orders := [Snapshot()], [ClientState()], [];
      while i < |frames| && !frames[i].CloseFrame?
        invariant 0 <= i <= |frames|
        invariant Trace(node, sessionId, frames, i, states, clients, orders)
        invariant states[0] == old(Snapshot()) && clients[0] == old(ClientState())
        invariant Snapshot() == states[i] && ClientState() == clients[i]
        invariant forall j :: 0 <= j < i ==> !frames[j].CloseFrame?
        invariant Valid() && sessionId in sessions
        invariant |sessions[sessionId]| == TextCount(frames[..i])
        invariant forall k :: 0 <= k < |sessions[sessionId]| ==> WellShapedReply(sessions[sessionId][k])
        invariant forall s :: s in old(sessions) && s != sessionId ==> s in sessions && sessions[s] == old(sessions)[s]
        invariant running == old(running) && old(events) <= events
        invariant nodeClient.nodePassword == old(nodeClient.nodePassword) && currentSessionId == old(currentSessionId)
      {
        var sent;
        ghost var order;
        ghost var replies := sessions[sessionId];
        sent, order := ServeFrame(node, sessionId, frames[i]);
        RepliesSnoc(frames, i, replies, sent);
        TraceSnoc(node, sessionId, frames, i, states, clients, orders, order, Snapshot(), ClientState());
        states, clients, orders := states + [Snapshot()], clients + [ClientState()], orders + [order];
        i := i + 1;
      }
      assert i == CloseAt(frames);
    }
  }
}
