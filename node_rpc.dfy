/** The JSON-RPC exchange with a Massa node, as pure functions: the request
    a call sends, how a reply is read, where a node is looked for, and how
    the node's answers become node status and staking info. The node itself
    is a function from request to reply. */
module NodeRpc {
  import opened Wrappers
  import opened Json
  import opened Decimal
  import opened Base64
  import opened BridgeProtocol

  // ---------------------------------------------------------------------
  // Requests and replies.

  /** One HTTP POST to the node: where it goes, its JSON body, and the
      Authorization header when there is one. */
  datatype RpcRequest = RpcRequest(url: string, body: Json, authorization: Option<string>)

  /** What one POST gives back. */
  datatype Reply =
    | NoBody                          // a response without a body
    | Thrown(message: Option<string>) // the transport or the body parser threw
    | Body(json: Json)                // the parsed body

  /** The node, as seen from the agent: the reply it gives to each request. */
  type Node = RpcRequest -> Reply

  /** The public API ports tried, in order of preference. */
  const PublicApiPorts: seq<Int32> := [33035, 33034, 8080, 8545]
  /** The private API port. */
  const PrivateApiPort: Int32 := 33034
  /** The JSON-RPC error code of a call made on the wrong API. */
  const WrongApiCode: int := -32019

  const NoNodeMessage: string := "No Massa node found. Please ensure your node is running."
  const MismatchMessage: string := "Node API mismatch, please retry"
  const EmptyResponse: string := "Empty response"
  const UnknownError: string := "Unknown error"
  const AddressNotFound: string := "Address not found"

  const EmptyParams: Json := JArr([])

  function Url(host: string, port: Int32): string {
    "http://" + host + ":" + IntToString(port) + "/api/v2"
  }

  /** The JSON-RPC 2.0 envelope. */
  function Envelope(id: Int64, methodName: string, params: Json): Json {
    JObj(map["jsonrpc" := Str("2.0"), "id" := Num(id), "method" := Str(methodName), "params" := params])
  }

  /** A public API call to the given port, without credentials. */
  function Request(host: string, port: Int32, id: Int64, methodName: string, params: Json): RpcRequest {
    RpcRequest(Url(host, port), Envelope(id, methodName, params), None)
  }

  /** The probe sent to a candidate port: `get_status` with id 1. */
  function Probe(host: string, port: Int32): RpcRequest {
    Request(host, port, 1, "get_status", EmptyParams)
  }

  /** A private API call: always port 33034, with Basic credentials made of
      an empty user and the node password. */
  function PrivateRequest(host: string, password: string, id: Int64, methodName: string, params: Json): (r: RpcRequest)
    ensures r.url == Url(host, PrivateApiPort)
    ensures r.authorization.Some? && Credentials(r.authorization.value) == Some(":" + password)
  {
    CredentialsRoundTrip("", password);
    RpcRequest(Url(host, PrivateApiPort), Envelope(id, methodName, params), Some(BasicAuthorization("", password)))
  }

  /** A probed port is taken when its reply is an object holding "result",
      whatever else it holds. */
  predicate Accepts(reply: Reply) {
    reply.Body? && reply.json.JObj? && "result" in reply.json.fields
  }

  predicate TryPort(node: Node, host: string, port: Int32) {
    Accepts(node(Probe(host, port)))
  }

  /** The position of the first port whose probe is taken, or |ports|. */
  function FirstAcceptedIndex(node: Node, host: string, ports: seq<Int32>): (k: nat)
    ensures k <= |ports|
    ensures forall j :: 0 <= j < k ==> !TryPort(node, host, ports[j])
    ensures k < |ports| ==> TryPort(node, host, ports[k])
  {
    if ports == [] then 0
    else if TryPort(node, host, ports[0]) then 0
    else
      var rest := FirstAcceptedIndex(node, host, ports[1..]);
      assert forall j :: 1 <= j <= rest ==> ports[1..][j - 1] == ports[j];
      1 + rest
  }

  /** The port auto-detection settles on, if any. */
  function FirstAccepted(node: Node, host: string, ports: seq<Int32>): (r: Option<Int32>)
    ensures r.Some? ==> r.value in ports && TryPort(node, host, r.value)
    ensures r.None? <==> forall i :: 0 <= i < |ports| ==> !TryPort(node, host, ports[i])
  {
    var k := FirstAcceptedIndex(node, host, ports);
    if k < |ports| then Some(ports[k]) else None
  }

  /** Detection settles on the first port that answers. */
  lemma FirstAcceptedAt(node: Node, host: string, ports: seq<Int32>, i: nat)
    requires i < |ports| && TryPort(node, host, ports[i])
    requires forall j :: 0 <= j < i ==> !TryPort(node, host, ports[j])
    ensures FirstAccepted(node, host, ports) == Some(ports[i])
  {
    var k := FirstAcceptedIndex(node, host, ports);
    assert k <= i ==> TryPort(node, host, ports[k]);
    assert k == i;
  }

  /** The port a call uses: the detected one, else a fresh detection. */
  function Detected(node: Node, host: string, port: Option<Int32>): Option<Int32> {
    if port.Some? then port else FirstAccepted(node, host, PublicApiPorts)
  }

  // ---------------------------------------------------------------------
  // Reading a reply.

  /** How a public API call ended. */
  datatype Outcome =
    | Answer(result: Json)            // no "error" member
    | RpcError(error: string)         // an error object of another code
    | WrongApi                        // an error object with code -32019
    | Raised(thrown: Option<string>)  // an exception

  /** The message of an error object: its `message` content, else "Unknown error". */
  function ErrorMessage(e: map<string, Json>): (r: Result<string>)
    ensures r.Failure? <==> "message" in e && (e["message"].JArr? || e["message"].JObj?)
    ensures "message" !in e ==> r == Success(UnknownError)
  {
    var m :- OptContent(e, "message");
    Success(m.GetOr(UnknownError))
  }

  /** What the public call makes of a reply. An "error" member wins over
      "result"; the error's message is read before its code. */
  function Classify(reply: Reply): (o: Outcome)
    ensures o.Answer? ==> reply.Body? && reply.json.JObj? && "error" !in reply.json.fields
    ensures o.WrongApi? || o.RpcError? ==> ReadableError(reply)
  {
    match reply
    case NoBody => Raised(Some(EmptyResponse))
    case Thrown(msg) => Raised(msg)
    case Body(j) =>
      match AsObject(j)
      case Failure(msg) => Raised(msg)
      case Success(m) =>
        if "error" !in m then Answer(Get(m, "result").GetOr(JNull))
        else
          match AsObject(m["error"])
          case Failure(msg) => Raised(msg)
          case Success(e) =>
            match ErrorMessage(e)
            case Failure(msg) => Raised(msg)
            case Success(message) =>
              match OptInt(e, "code")
              case Failure(msg) => Raised(msg)
              case Success(code) => if code == Some(WrongApiCode) then WrongApi else RpcError(message)
  }

  /** What the private call makes of a reply: the same, except that the
      error code is never read. */
  function PrivateResult(reply: Reply): (r: Result<Json>)
    ensures r.Success? <==> reply.Body? && reply.json.JObj? && "error" !in reply.json.fields
  {
    match reply
    case NoBody => Fail(EmptyResponse)
    case Thrown(msg) => Failure(msg)
    case Body(j) =>
      var m :- AsObject(j);
      if "error" !in m then Success(Get(m, "result").GetOr(JNull))
      else
        var e :- AsObject(m["error"]);
        var message :- ErrorMessage(e);
        Fail(message)
  }

  /** A call answers exactly when the body is an object without "error",
      and it answers with "result", or null when that is absent. */
  lemma ClassifyAnswer(reply: Reply)
    ensures Classify(reply).Answer? <==> reply.Body? && reply.json.JObj? && "error" !in reply.json.fields
    ensures Classify(reply).Answer? ==>
      Classify(reply).result == if "result" in reply.json.fields then reply.json.fields["result"] else JNull
  {
  }

  /** The wrong-API outcome comes only from an error object whose code
      reads as -32019 and whose message is readable. */
  lemma ClassifyWrongApi(reply: Reply)
    ensures Classify(reply).WrongApi? <==>
      ReadableError(reply) && OptInt(reply.json.fields["error"].fields, "code") == Success(Some(WrongApiCode))
  {
  }

  /** The reply is an object holding an error object with a readable message. */
  predicate ReadableError(reply: Reply) {
    && reply.Body? && reply.json.JObj? && "error" in reply.json.fields && reply.json.fields["error"].JObj?
    && ErrorMessage(reply.json.fields["error"].fields).Success?
  }

  /** The public and the private call agree on every reply but a -32019
      error and an unreadable code: both answer alike and report the
      node's error message alike. */
  lemma PublicPrivateAgree(reply: Reply)
    ensures Classify(reply).Answer? <==> PrivateResult(reply).Success?
    ensures Classify(reply).Answer? ==> PrivateResult(reply) == Success(Classify(reply).result)
    ensures Classify(reply).RpcError? ==> PrivateResult(reply) == Fail(Classify(reply).error)
    ensures Classify(reply).Raised? && !ReadableError(reply) ==> PrivateResult(reply) == Failure(Classify(reply).thrown)
  {
  }

  // ---------------------------------------------------------------------
  // Port reset after an exception.

  /** t occurs in s (Kotlin's `contains`), one position at a time. */
  predicate Contains(s: string, t: string)
    decreases |s|
  {
    t <= s || (|s| > 0 && Contains(s[1..], t))
  }

  /** t starting at position i of s is found. */
  lemma {:induction false} ContainsFrom(s: string, t: string, i: nat)
    requires i <= |s| && t <= s[i..]
    ensures Contains(s, t)
    decreases i
  {
    if i == 0 {
      assert s[0..] == s;
    } else {
      assert s[1..][i - 1..] == s[i..];
      ContainsFrom(s[1..], t, i - 1);
    }
  }

  /** Where Contains found t. */
  lemma {:induction false} ContainsWitness(s: string, t: string) returns (i: nat)
    requires Contains(s, t)
    ensures i <= |s| && t <= s[i..]
    decreases |s|
  {
    if t <= s {
      i := 0;
      assert s[0..] == s;
    } else {
      var j := ContainsWitness(s[1..], t);
      i := j + 1;
      assert s[1..][j..] == s[i..];
    }
  }

  /** Contains finds t exactly when t starts at some position of s. */
  lemma ContainsAt(s: string, t: string)
    ensures Contains(s, t) <==> exists i :: 0 <= i <= |s| && t <= s[i..]
  {
    if Contains(s, t) {
      var i := ContainsWitness(s, t);
    }
    if exists i :: 0 <= i <= |s| && t <= s[i..] {
      var i :| 0 <= i <= |s| && t <= s[i..];
      ContainsFrom(s, t, i);
    }
  }

  /** An exception whose message mentions a refused connection or a timeout
      makes the client forget the detected port. */
  predicate ResetsPort(msg: Option<string>) {
    msg.Some? && (Contains(msg.value, "Connection refused") || Contains(msg.value, "timeout"))
  }

  // ---------------------------------------------------------------------
  // One public call, with detection.

  /** What a call returns and the port it leaves detected. */
  datatype Call = Call(result: Result<Json>, port: Option<Int32>)

  /** The end of a call made on port p, given how it ended and what a
      fresh detection would find. */
  function Settle(o: Outcome, p: Int32, again: Option<Int32>): (c: Call)
    ensures c.result.Success? ==> c.port == Some(p)
  {
    match o
    case Answer(j) => Call(Success(j), Some(p))
    case RpcError(msg) => Call(Fail(msg), Some(p))
    case WrongApi => Call(Fail(MismatchMessage), again)
    case Raised(msg) => Call(Failure(msg), if ResetsPort(msg) then None else Some(p))
  }

  /** A call leaves its own port detected, or a fresh detection, or none. */
  lemma SettlePort(o: Outcome, p: Int32, again: Option<Int32>)
    ensures var c := Settle(o, p, again); c.port == None || c.port == Some(p) || c.port == again
  {
  }

  /** A public call made with `port` detected (None: not yet detected). */
  function Rpc(node: Node, host: string, port: Option<Int32>, id: Int64, methodName: string, params: Json): (c: Call)
    ensures c.result.Success? ==> c.port.Some?
  {
    var p := Detected(node, host, port);
    if p.None? then Call(Fail(NoNodeMessage), None)
    else
      var again := FirstAccepted(node, host, PublicApiPorts);
      Settle(Classify(node(Request(host, p.value, id, methodName, params))), p.value, again)
  }

  /** A call succeeds exactly when a port is known or found and the node
      answers there; it then returns the answer and keeps that port. */
  lemma RpcSucceeds(node: Node, host: string, port: Option<Int32>, id: Int64, methodName: string, params: Json)
    ensures var c := Rpc(node, host, port, id, methodName, params);
      var p := Detected(node, host, port);
      c.result.Success? <==> p.Some? && Classify(node(Request(host, p.value, id, methodName, params))).Answer?
    ensures var c := Rpc(node, host, port, id, methodName, params);
      var p := Detected(node, host, port);
      c.result.Success? ==>
        c.port == p && c.result.value == Classify(node(Request(host, p.value, id, methodName, params))).result
  {
  }

  /** Without a detected port and with no port answering the probe, the
      call fails with the no-node message and nothing is detected. */
  lemma RpcNoNode(node: Node, host: string, id: Int64, methodName: string, params: Json)
    requires forall i :: 0 <= i < |PublicApiPorts| ==> !TryPort(node, host, PublicApiPorts[i])
    ensures Rpc(node, host, None, id, methodName, params) == Call(Fail(NoNodeMessage), None)
  {
  }

  /** The detected port is always one of the public ports, or none. */
  lemma RpcKeepsPublicPort(node: Node, host: string, port: Option<Int32>, id: Int64, methodName: string, params: Json)
    requires port.Some? ==> port.value in PublicApiPorts
    ensures var c := Rpc(node, host, port, id, methodName, params);
      c.port.Some? ==> c.port.value in PublicApiPorts
  {
    var p := Detected(node, host, port);
    if p.Some? {
      var again := FirstAccepted(node, host, PublicApiPorts);
      SettlePort(Classify(node(Request(host, p.value, id, methodName, params))), p.value, again);
    }
  }

  /** After an exception the port is forgotten exactly when the message
      names a refused connection or a timeout; a node error keeps it, and a
      wrong-API error detects again. */
  lemma RpcPortAfterFailure(node: Node, host: string, port: Int32, id: Int64, methodName: string, params: Json)
    ensures var c := Rpc(node, host, Some(port), id, methodName, params);
      var o := Classify(node(Request(host, port, id, methodName, params)));
      && (o.Raised? ==> c.result == Failure(o.thrown) && c.port == (if ResetsPort(o.thrown) then None else Some(port)))
      && (o.RpcError? ==> c.result == Fail(o.error) && c.port == Some(port))
      && (o.WrongApi? ==> c.result == Fail(MismatchMessage) && c.port == FirstAccepted(node, host, PublicApiPorts))
  {
  }

  // ---------------------------------------------------------------------
  // Reading the node's answers.

  /** `result.jsonArray.map { it.jsonPrimitive.content }` */
  function StringList(j: Json): (r: Result<seq<string>>)
    ensures r.Success? <==> j.JArr? && forall i :: 0 <= i < |j.items| ==> !j.items[i].JArr? && !j.items[i].JObj?
    ensures r.Success? ==> |r.value| == |j.items|
    ensures r.Success? ==> forall i :: 0 <= i < |j.items| ==> Content(j.items[i]) == Success(r.value[i])
  {
    var items :- AsArray(j);
    Contents(items)
  }

  /** A list of strings is read back as itself. */
  lemma StringListRoundTrip(ss: seq<string>)
    ensures StringList(StrArray(ss)) == Success(ss)
  {
    var r := StringList(StrArray(ss));
    assert r.value == ss;
  }

  /** `connected_nodes?.jsonObject?.size ?: 0`; a JVM collection reports at
      most Int.MAX_VALUE as its size. */
  function PeerCount(peers: Option<map<string, Json>>): Int32 {
    match peers
    case None => 0
    case Some(m) => if |m| <= IntMax then |m| else IntMax
  }

  function AsInt64(n: Option<int>): Option<Int64>
    requires n.Some? ==> LongMin <= n.value <= LongMax
  {
    match n
    case Some(v) => Some(v as Int64)
    case None => None
  }

  /** A primitive or null member, or none at all: what `?.jsonPrimitive` accepts. */
  predicate PrimitiveOrAbsent(m: map<string, Json>, key: string) {
    key in m ==> !m[key].JArr? && !m[key].JObj?
  }

  /** A `get_status` answer whose members the agent reads have the shapes
      it reads them as. */
  predicate WellFormedStatus(result: Json) {
    && result.JObj?
    && PrimitiveOrAbsent(result.fields, "version")
    && PrimitiveOrAbsent(result.fields, "current_cycle")
    && PrimitiveOrAbsent(result.fields, "current_period")
    && ("config" in result.fields ==>
          result.fields["config"].JObj? && PrimitiveOrAbsent(result.fields["config"].fields, "genesis_timestamp"))
    && ("connected_nodes" in result.fields ==> result.fields["connected_nodes"].JObj?)
  }

  /** The node status built from a `get_status` answer, the host and the
      detected port (0 when none). Members are read in the order the
      source reads them, so the first malformed one names the failure. */
  function NodeStatusFrom(result: Json, host: string, port: Int32): (r: Result<NodeStatus>)
    ensures r.Success? <==> WellFormedStatus(result)
    ensures r.Success? ==> r.value.connected && r.value.nodeIp == host && r.value.nodePort == port
    ensures r.Success? ==> r.value.connectedPeers.Some?
  {
    var status :- AsObject(result);
    var version :- OptContent(status, "version");
    var config :- OptObject(status, "config");
    var networkVersion :- match config case None => Success(None) case Some(c) => OptContent(c, "genesis_timestamp");
    var cycle :- OptLong(status, "current_cycle");
    var period :- OptLong(status, "current_period");
    var peers :- OptObject(status, "connected_nodes");
    Success(NodeStatus(true, host, port, version, networkVersion, AsInt64(cycle), AsInt64(period), Some(PeerCount(peers))))
  }

  /** A `get_status` answer carrying every member the agent reads. */
  function StatusAnswer(version: string, genesis: string, cycle: Int64, period: Int64, peers: map<string, Json>): Json {
    JObj(map[
      "version" := Str(version),
      "config" := JObj(map["genesis_timestamp" := Str(genesis)]),
      "current_cycle" := Num(cycle),
      "current_period" := Num(period),
      "connected_nodes" := JObj(peers)])
  }

  /** Each member of such an answer lands in its field of the status. */
  lemma NodeStatusFromReads(version: string, genesis: string, cycle: Int64, period: Int64, peers: map<string, Json>,
                            host: string, port: Int32)
    ensures NodeStatusFrom(StatusAnswer(version, genesis, cycle, period, peers), host, port)
      == Success(NodeStatus(true, host, port, Some(version), Some(genesis), Some(cycle), Some(period), Some(PeerCount(Some(peers)))))
  {
    var m := StatusAnswer(version, genesis, cycle, period, peers).fields;
    var config := map["genesis_timestamp" := Str(genesis)];
    assert OptContent(m, "version") == Success(Some(version));
    assert OptObject(m, "config") == Success(Some(config));
    assert OptContent(config, "genesis_timestamp") == Success(Some(genesis));
    OptLongOf(m, "current_cycle", cycle);
    OptLongOf(m, "current_period", period);
    assert OptObject(m, "connected_nodes") == Success(Some(peers));
  }

  lemma OptLongOf(m: map<string, Json>, key: string, n: Int64)
    requires key in m && m[key] == Num(n)
    ensures OptLong(m, key) == Success(Some(n as int))
  {
    ParseIntToString(n, LongMin, LongMax);
  }

  /** An empty answer gives a status with nothing but zero peers. */
  lemma NodeStatusFromEmpty(host: string, port: Int32)
    ensures NodeStatusFrom(JObj(map[]), host, port) == Success(NodeStatus(true, host, port, connectedPeers := Some(0)))
  {
  }

  /** One deferred credit's amount: `amount` read as a double, else 0. */
  function CreditAmount(credit: Json): (r: Result<Decimal>)
    ensures r.Failure? <==> !credit.JObj? || !PrimitiveOrAbsent(credit.fields, "amount")
  {
    var o :- AsObject(credit);
    var amount :- OptContent(o, "amount");
    Success(match amount case Some(t) => ParseDecimal(t).GetOr(Zero) case None => Zero)
  }

  /** The amounts of all credits, failing at the first malformed one. */
  function CreditAmounts(credits: seq<Json>): (r: Result<seq<Decimal>>)
    ensures r.Success? ==> |r.value| == |credits|
    ensures r.Success? ==> forall i :: 0 <= i < |credits| ==> CreditAmount(credits[i]) == Success(r.value[i])
  {
    if credits == [] then Success([])
    else
      var d :- CreditAmount(credits[0]);
      var rest :- CreditAmounts(credits[1..]);
      assert forall i :: 1 <= i < |credits| ==> credits[i] == credits[1..][i - 1];
      Success([d] + rest)
  }

  /** The deferred credits of an address entry, summed and written as a
      double's text; "0.0" when there are none. */
  function DeferredTotal(info: map<string, Json>): (r: Result<string>)
    ensures r.Failure? ==> "deferred_credits" in info
  {
    var credits :- OptArray(info, "deferred_credits");
    var amounts :- match credits case None => Success([]) case Some(cs) => CreditAmounts(cs);
    Success(Format(Sum(amounts)))
  }

  /** `candidate_balance`, else `final_balance`, else "0"; the final balance
      is read only when there is no candidate balance. */
  function Balance(info: map<string, Json>): (r: Result<string>)
    ensures r.Success? ==> OptContent(info, "candidate_balance").Success?
  {
    match OptContent(info, "candidate_balance")
    case Failure(msg) => Failure(msg)
    case Success(Some(b)) => Success(b)
    case Success(None) =>
      var f :- OptContent(info, "final_balance");
      Success(f.GetOr("0"))
  }

  /** `addressInfo[key]?.jsonPrimitive?.intOrNull ?: fallback` */
  function IntOr(info: map<string, Json>, key: string, fallback: Int32): (r: Result<Int32>)
    ensures r.Failure? <==> !PrimitiveOrAbsent(info, key)
  {
    var n :- OptInt(info, key);
    Success(if n.Some? then n.value as Int32 else fallback)
  }

  /** `active_rolls`, else `candidate_roll_count`, else 0. */
  function ActiveRolls(info: map<string, Json>): Result<Int32> {
    match OptInt(info, "active_rolls")
    case Failure(msg) => Failure(msg)
    case Success(Some(n)) => Success(n as Int32)
    case Success(None) => IntOr(info, "candidate_roll_count", 0)
  }

  /** The staking info of `address`, from a `get_addresses` answer: the
      first entry of the array, balances and rolls with their fallbacks,
      and the deferred credits summed. */
  function StakingInfoFrom(result: Json, address: string): (r: Result<StakingInfo>)
    ensures result == JArr([]) ==> r == Fail(AddressNotFound)
    ensures r.Success? ==> result.JArr? && |result.items| > 0 && result.items[0].JObj?
    ensures r.Success? ==> var info := result.items[0].fields;
      && r.value.address == address
      && Balance(info) == Success(r.value.balance)
      && ActiveRolls(info) == Success(r.value.activeRolls)
      && DeferredTotal(info) == Success(r.value.deferredCredits)
  {
    var addresses :- AsArray(result);
    if |addresses| == 0 then Fail(AddressNotFound)
    else
      var info :- AsObject(addresses[0]);
      var total :- DeferredTotal(info);
      var balance :- Balance(info);
      var candidate := OptContent(info, "candidate_balance").value;
      var finalRolls :- IntOr(info, "final_roll_count", 0);
      var candidateRolls :- IntOr(info, "candidate_roll_count", 0);
      var activeRolls :- ActiveRolls(info);
      var stakingAddress :- OptContent(info, "address");
      Success(StakingInfo(address, balance, candidate, finalRolls, candidateRolls, activeRolls, stakingAddress, total))
  }

  /** The balance is the candidate balance when the node gives one, else the
      final balance, else "0". */
  lemma BalanceFallback(info: map<string, Json>)
    requires PrimitiveOrAbsent(info, "candidate_balance") && PrimitiveOrAbsent(info, "final_balance")
    ensures "candidate_balance" in info ==> Balance(info) == Content(info["candidate_balance"])
    ensures "candidate_balance" !in info && "final_balance" in info ==> Balance(info) == Content(info["final_balance"])
    ensures "candidate_balance" !in info && "final_balance" !in info ==> Balance(info) == Success("0")
  {
  }

  /** Active rolls are `active_rolls` when it reads as an Int, else the
      candidate roll count as read for `candidateRolls`. */
  lemma ActiveRollsFallback(info: map<string, Json>)
    requires PrimitiveOrAbsent(info, "active_rolls")
    ensures OptInt(info, "active_rolls").value.Some? ==> ActiveRolls(info) == Success(OptInt(info, "active_rolls").value.value as Int32)
    ensures OptInt(info, "active_rolls").value.None? ==> ActiveRolls(info) == IntOr(info, "candidate_roll_count", 0)
  {
  }

  /** The written total of the deferred credits reads back as exactly the
      sum of their amounts. */
  lemma DeferredCreditsExact(info: map<string, Json>)
    requires DeferredTotal(info).Success? && "deferred_credits" in info
    ensures var cs := info["deferred_credits"].items;
      && CreditAmounts(cs).Success?
      && ParseDecimal(DeferredTotal(info).value).Some?
      && Value(ParseDecimal(DeferredTotal(info).value).value) == SumValues(CreditAmounts(cs).value)
  {
    var ds := CreditAmounts(info["deferred_credits"].items).value;
    FormatRoundTrip(Sum(ds));
    SumValue(ds);
  }

  /** Without deferred credits the total is written "0.0". */
  lemma NoDeferredCredits(info: map<string, Json>)
    requires "deferred_credits" !in info
    ensures DeferredTotal(info) == Success("0.0")
  {
    FormatZero();
  }

  // ---------------------------------------------------------------------
  // Parameters and prepared operations.

  /** `[[address]]`, the parameter of `get_addresses` and of the staking
      key calls. */
  function SingletonParams(s: string): Json {
    JArr([JArr([Str(s)])])
  }

  /** `[[id, ...]]`, the parameter of `get_operations`. */
  function OperationIdParams(ids: seq<string>): Json {
    JArr([StrArray(ids)])
  }

  /** An unsigned roll operation for the wallet to sign. */
  function PrepareRolls(opType: string, address: string, rollCount: Int32, fee: string): (r: Json)
    ensures r.JObj? && r.fields.Keys == {"type", "address", "roll_count", "fee"}
  {
    JObj(map["type" := Str(opType), "address" := Str(address), "roll_count" := Num(rollCount), "fee" := Str(fee)])
  }

  /** The prepared operation gives back what it was made from. */
  lemma PrepareRollsReads(opType: string, address: string, rollCount: Int32, fee: string)
    ensures var m := PrepareRolls(opType, address, rollCount, fee).fields;
      && ReadString(m, "type") == Success(opType)
      && ReadString(m, "address") == Success(address)
      && ReadInt(m, "roll_count", IntMin, IntMax) == Success(rollCount as int)
      && ReadString(m, "fee") == Success(fee)
  {
    var m := PrepareRolls(opType, address, rollCount, fee).fields;
    ReadStringOf(m, "type", opType);
    ReadStringOf(m, "address", address);
    ReadIntOf(m, "roll_count", rollCount, IntMin, IntMax);
    ReadStringOf(m, "fee", fee);
  }

  // ---------------------------------------------------------------------
  // What the client's typed calls return.

  /** The node status a `get_status` call gives, read with the port the
      call left detected (0 when none). */
  function StatusOf(c: Call, host: string): (r: Result<NodeStatus>)
    ensures r.Success? ==> r.value.connected && r.value.nodeIp == host
  {
    if c.result.Failure? then Failure(c.result.message) else NodeStatusFrom(c.result.value, host, c.port.GetOr(0))
  }

  /** The staking info a `get_addresses` call gives. */
  function StakingOf(c: Call, address: string): Result<StakingInfo> {
    if c.result.Failure? then Failure(c.result.message) else StakingInfoFrom(c.result.value, address)
  }

  /** The list of strings a call answers with. */
  function StringsOf(r: Result<Json>): Result<seq<string>> {
    if r.Failure? then Failure(r.message) else StringList(r.value)
  }

  /** `true` once the node accepts a private call. */
  function AcceptedOf(r: Result<Json>): Result<bool> {
    if r.Success? then Success(true) else Failure(r.message)
  }
}
