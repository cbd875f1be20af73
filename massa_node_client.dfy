/** The client the agent uses to talk to its Massa node: it remembers the
    port it detected and the password of the private API, and each call is
    read as the pure functions of NodeRpc say. */
module NodeClient {
  import opened Wrappers
  import opened Json
  import opened BridgeProtocol
  import opened NodeRpc

  /** The private API password the client starts with. */
  const DefaultPassword: string := "massa123"

  class MassaNodeClient {
    const nodeIp: string
    /** The public API port found by detection; None until one is found. */
    var detectedPort: Option<Int32>
    var nodePassword: string

    /** A detected port is always one of the public API ports. */
    ghost predicate Valid()
      reads this
    {
      detectedPort.Some? ==> detectedPort.value in PublicApiPorts
    }

    constructor (nodeIp: string := "127.0.0.1")
      ensures this.nodeIp == nodeIp && detectedPort == None && nodePassword == DefaultPassword
      ensures Valid()
    {
      this.nodeIp := nodeIp;
      detectedPort := None;
      nodePassword := DefaultPassword;
    }

    /** Probes the public API ports in order and keeps the first one whose
        `get_status` answers; the detected port is left alone when none does. */
    method AutoDetectPort(node: Node) returns (found: Option<Int32>)
      requires Valid()
      modifies this
      ensures Valid()
      ensures found == FirstAccepted(node, nodeIp, PublicApiPorts)
      ensures detectedPort == if found.Some? then found else old(detectedPort)
      ensures nodePassword == old(nodePassword)
    {
      var ports := PublicApiPorts;
      var i := 0;
      while i < |ports|
        invariant 0 <= i <= |ports|
        invariant forall j :: 0 <= j < i ==> !TryPort(node, nodeIp, ports[j])
        invariant detectedPort == old(detectedPort) && nodePassword == old(nodePassword)
      {
        if TryPort(node, nodeIp, ports[i]) {
          FirstAcceptedAt(node, nodeIp, ports, i);
          detectedPort := Some(ports[i]);
          found := Some(ports[i]);
          return;
        }
        i := i + 1;
      }
      found := None;
    }

    /** One public API call: detects a port first when none is known, and
        afterwards forgets or re-detects the port as the outcome demands. */
    method RpcCall(node: Node, now: Int64, methodName: string, params: Json) returns (r: Result<Json>)
      requires Valid()
      modifies this
      ensures Valid()
      ensures Call(r, detectedPort) == Rpc(node, nodeIp, old(detectedPort), now, methodName, params)
      ensures nodePassword == old(nodePassword)
    {
      if detectedPort.None? {
        var found := AutoDetectPort(node);
        if detectedPort.None? {
          return Fail(NoNodeMessage);
        }
      }
      var port := detectedPort.value;
      var outcome := Classify(node(Request(nodeIp, port, now, methodName, params)));
      match outcome {
        case Answer(j) =>
          r := Success(j);
        case RpcError(msg) =>
          r := Fail(msg);
        case WrongApi =>
          detectedPort := None;
          var found := AutoDetectPort(node);
          r := Fail(MismatchMessage);
        case Raised(msg) =>
          if ResetsPort(msg) {
            detectedPort := None;
          }
          r := Failure(msg);
      }
    }

    /** Detects a port when none is known; ready when one is known and the
        node answers `get_status` on it. */
    method Initialize(node: Node, now: Int64) returns (ok: bool)
      requires Valid()
      modifies this
      ensures Valid()
      ensures var p := Detected(node, nodeIp, old(detectedPort));
        && (p.None? ==> !ok && detectedPort == None)
        && (p.Some? ==>
              var c := Rpc(node, nodeIp, p, now, "get_status", EmptyParams);
              ok == c.result.Success? && detectedPort == c.port)
      ensures nodePassword == old(nodePassword)
    {
      if detectedPort.None? {
        var found := AutoDetectPort(node);
      }
      if detectedPort.None? {
        ok := false;
      } else {
        ok := IsNodeConnected(node, now);
      }
    }

    /** Whether `get_status` succeeds. */
    method IsNodeConnected(node: Node, now: Int64) returns (connected: bool)
      requires Valid()
      modifies this
      ensures Valid()
      ensures var c := Rpc(node, nodeIp, old(detectedPort), now, "get_status", EmptyParams);
        connected == c.result.Success? && detectedPort == c.port
      ensures nodePassword == old(nodePassword)
    {
      var r := RpcCall(node, now, "get_status", EmptyParams);
      connected := r.Success?;
    }

    /** The node status, read from `get_status`, with the port detected
        after the call (0 when none). */
    method GetNodeStatus(node: Node, now: Int64) returns (r: Result<NodeStatus>)
      requires Valid()
      modifies this
      ensures Valid()
      ensures var c := Rpc(node, nodeIp, old(detectedPort), now, "get_status", EmptyParams);
        && detectedPort == c.port
        && r == StatusOf(c, nodeIp)
      ensures nodePassword == old(nodePassword)
    {
      var result := RpcCall(node, now, "get_status", EmptyParams);
      if result.Failure? {
        return Failure(result.message);
      }
      r := NodeStatusFrom(result.value, nodeIp, detectedPort.GetOr(0));
    }

    /** The staking info of an address, read from `get_addresses`. */
    method GetStakingInfo(node: Node, now: Int64, address: string) returns (r: Result<StakingInfo>)
      requires Valid()
      modifies this
      ensures Valid()
      ensures var c := Rpc(node, nodeIp, old(detectedPort), now, "get_addresses", SingletonParams(address));
        && detectedPort == c.port
        && r == StakingOf(c, address)
      ensures nodePassword == old(nodePassword)
    {
      var result := RpcCall(node, now, "get_addresses", SingletonParams(address));
      if result.Failure? {
        return Failure(result.message);
      }
      r := StakingInfoFrom(result.value, address);
    }

    /** The addresses the node stakes for, from the public API. */
    method GetStakingAddresses(node: Node, now: Int64) returns (r: Result<seq<string>>)
      requires Valid()
      modifies this
      ensures Valid()
      ensures var c := Rpc(node, nodeIp, old(detectedPort), now, "get_staking_addresses", EmptyParams);
        && detectedPort == c.port
        && r == StringsOf(c.result)
      ensures nodePassword == old(nodePassword)
    {
      var result := RpcCall(node, now, "get_staking_addresses", EmptyParams);
      if result.Failure? {
        return Failure(result.message);
      }
      r := StringList(result.value);
    }

    /** Sends signed operations; the node answers with their ids. */
    method SendOperations(node: Node, now: Int64, operations: seq<Json>) returns (r: Result<seq<string>>)
      requires Valid()
      modifies this
      ensures Valid()
      ensures var c := Rpc(node, nodeIp, old(detectedPort), now, "send_operations", JArr(operations));
        && detectedPort == c.port
        && r == StringsOf(c.result)
      ensures nodePassword == old(nodePassword)
    {
      var result := RpcCall(node, now, "send_operations", JArr(operations));
      if result.Failure? {
        return Failure(result.message);
      }
      r := StringList(result.value);
    }

    /** The status of operations, as the node gives it. */
    method GetOperations(node: Node, now: Int64, operationIds: seq<string>) returns (r: Result<Json>)
      requires Valid()
      modifies this
      ensures Valid()
      ensures Call(r, detectedPort) == Rpc(node, nodeIp, old(detectedPort), now, "get_operations", OperationIdParams(operationIds))
      ensures nodePassword == old(nodePassword)
    {
      r := RpcCall(node, now, "get_operations", OperationIdParams(operationIds));
    }

    /** The raw `get_status` answer. */
    method GetNetworkInfo(node: Node, now: Int64) returns (r: Result<Json>)
      requires Valid()
      modifies this
      ensures Valid()
      ensures Call(r, detectedPort) == Rpc(node, nodeIp, old(detectedPort), now, "get_status", EmptyParams)
      ensures nodePassword == old(nodePassword)
    {
      r := RpcCall(node, now, "get_status", EmptyParams);
    }

    function GetDetectedPort(): Option<Int32>
      reads this
    {
      detectedPort
    }

    /** Forces detection on the next call. */
    method ResetPortDetection()
      modifies this
      ensures Valid()
      ensures detectedPort == None && nodePassword == old(nodePassword)
    {
      detectedPort := None;
    }

    method SetNodePassword(password: string)
      requires Valid()
      modifies this
      ensures Valid()
      ensures nodePassword == password && detectedPort == old(detectedPort)
    {
      nodePassword := password;
    }

    /** One private API call: port 33034, Basic credentials, no detection
        and no change to the detected port. */
    method PrivateRpcCall(node: Node, now: Int64, methodName: string, params: Json) returns (r: Result<Json>)
      ensures r == PrivateResult(node(PrivateRequest(nodeIp, nodePassword, now, methodName, params)))
    {
      var reply := node(PrivateRequest(nodeIp, nodePassword, now, methodName, params));
      match reply {
        case NoBody =>
          r := Fail(EmptyResponse);
        case Thrown(msg) =>
          r := Failure(msg);
        case Body(j) =>
          if !j.JObj? {
            r := Failure(AsObject(j).message);
          } else if "error" !in j.fields {
            r := Success(Get(j.fields, "result").GetOr(JNull));
          } else {
            var error := j.fields["error"];
            if !error.JObj? {
              r := Failure(AsObject(error).message);
            } else {
              var message := ErrorMessage(error.fields);
              r := if message.Failure? then Failure(message.message) else Fail(message.value);
            }
          }
      }
    }

    /** Starts staking with a secret key; true once the node accepts it. */
    method AddStakingSecretKey(node: Node, now: Int64, secretKey: string) returns (r: Result<bool>)
      ensures r == AcceptedOf(PrivateResult(node(PrivateRequest(nodeIp, nodePassword, now, "add_staking_secret_keys", SingletonParams(secretKey)))))
    {
      var result := PrivateRpcCall(node, now, "add_staking_secret_keys", SingletonParams(secretKey));
      r := if result.Success? then Success(true) else Failure(result.message);
    }

    /** Stops staking for an address; true once the node accepts it. */
    method RemoveStakingAddress(node: Node, now: Int64, address: string) returns (r: Result<bool>)
      ensures r == AcceptedOf(PrivateResult(node(PrivateRequest(nodeIp, nodePassword, now, "remove_staking_addresses", SingletonParams(address)))))
    {
      var result := PrivateRpcCall(node, now, "remove_staking_addresses", SingletonParams(address));
      r := if result.Success? then Success(true) else Failure(result.message);
    }

    /** The addresses the node stakes for, from the private API. */
    method GetStakingAddressesPrivate(node: Node, now: Int64) returns (r: Result<seq<string>>)
      ensures r == StringsOf(PrivateResult(node(PrivateRequest(nodeIp, nodePassword, now, "get_staking_addresses", EmptyParams))))
    {
      var result := PrivateRpcCall(node, now, "get_staking_addresses", EmptyParams);
      r := if result.Success? then StringList(result.value) else Failure(result.message);
    }
  }
}
