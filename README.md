# Massa assisted staking agent: the bridge

The agent runs next to a user's Massa node. A wallet app on a phone pairs
with it by QR code and then talks to it over a WebSocket. This project
models the agent's bridge, which has three parts:

- **The protocol** (`BridgeProtocol.kt`) covers the JSON messages both sides
  exchange: requests, responses, pushed events, and the records they carry
  (node status, staking info, devices, pairing data). It also fixes the
  method and event names.
- **The node client** (`MassaNodeClient.kt`) speaks JSON-RPC 2.0 to the node:
  - It finds the node's public API port by probing 33035, 33034, 8080 and
    8545 in that order.
  - It forgets the port again on a "Connection refused" or "timeout"
    failure, and re-detects it on a wrong-API error (code -32019).
  - It reads status, staking info, staking addresses and operations.
  - It uses the private API on port 33034, with HTTP Basic credentials
    (section 2 of RFC 7617, in base 64 per section 4 of RFC 4648), to add
    and remove staking keys.
- **The server** (`BridgeServer.kt`) holds the open sessions and the device
  each session connected. It publishes a state snapshot and a stream of
  events to the user interface. It routes each request to its handler,
  polls the node and broadcasts changes.

## How it is modelled

- **JSON values.** `Json` is an abstract JSON tree. Its accessors follow the
  serialization library: `jsonObject` and `jsonPrimitive.content` throw
  exactly where the library does, and `intOrNull` throws on an array or
  object. Which number texts `intOrNull` accepts is approximated (see
  "Left out"). A thrown exception is a `Failure` carrying the exception's
  message.
- **The node.** A node is a function from an HTTP request (URL, credentials,
  JSON body) to a reply (no body, an exception, or a JSON body). Every
  public call is the pure function `NodeRpc.Rpc`. It gives the call's result
  and the port the client is left with.
- **The client object.** `NodeClient.MassaNodeClient` is a class whose
  methods update `detectedPort` and `nodePassword`. Each method is proved
  equal to those pure functions.
- **The server as functions.** A registry value holds the server's state.
  `ServerState` gives each server step as a function on it. `Dispatch`
  gives each handler as a function returning the new registry, the client's
  port and the response.
- **The server object.** `Server.BridgeServer` is a class with the
  server's mutable fields. Each method that performs one server step (start,
  stop, teardown, disconnecting devices, broadcasting, polling, updating the
  node configuration, and each request handler up to `HandleMessage`) is
  proved to leave exactly the state the corresponding step function gives.
  The others are specified directly. The constructor states the initial
  state. `GeneratePairingData` states the new session and the pairing data.
  The methods that serve a live connection are specified by the steps they
  chain:
  - `Answer` and `ServeFrame` leave exactly the `Handle` step of their frame.
  - `Serve` returns the states the connection goes through, each the
    `Handle` step of the frame before it (`Trace`).
  - `HandleConnection` ends with `ServerState.Teardown` of the last of
    those states.
  They also state how many replies go out, that each is well shaped, and
  that other sessions are untouched.
- **Time and identifiers.** The clock and the UUIDs are parameters.
- **Map iteration order.** Where the source iterates a map
  (`connectedDevices.toList()`, `values.toList()`), the order is a ghost
  listing of the keys. The model does not choose it.
- **Doubles.** Amounts are summed as exact decimals (`Decimal`). The sum is
  written the way Kotlin writes a double: at least one fractional digit, no
  trailing zeros.

Where the code and its documentation differ, the model follows the code:

- A response can carry neither a result nor an error. `disconnect` answers
  `BridgeResponse("disconnect", true)`, and a failure without a message has
  a null error.
- Port probing accepts any reply object holding `result`, even one that
  also holds `error`. Ordinary calls let an `error` member win.
- A second `connect` on a session that already has a device replaces the
  device in the map. The published list then keeps both the old and the
  new device (`Dispatch.ReconnectDuplicates`).
- `get_addresses` is a declared method name but has no handler. It is
  refused as an unknown method.
- The server state's `connectedDevices` list is rebuilt from the map after
  `get_staking_info`. Everywhere else it is kept by appending and removing.

## Model

| member | source | states |
|---|---|---|
| BridgeProtocol.Defaults | src/main/kotlin/com/massapay/agent/bridge/BridgeProtocol.kt:12-107 | the default values of every record: empty params, absent result and error, the bridge config (127.0.0.1, 33034, 33035, 8765, one hour), "massa-agent" 1.0.0 pairing data, deferred credits "0", fee "0.01" |
| BridgeProtocol.MethodNamesDistinct | src/main/kotlin/com/massapay/agent/bridge/BridgeProtocol.kt:112-135 | a name denotes a method exactly when it is that method's name, and no two methods share a name |
| BridgeProtocol.MethodNamedName | src/main/kotlin/com/massapay/agent/bridge/BridgeProtocol.kt:112-135 | every method is found again from its own name |
| BridgeProtocol.EventNamesDistinct | src/main/kotlin/com/massapay/agent/bridge/BridgeProtocol.kt:140-147 | a name denotes an event kind exactly when it is that kind's name, and the six names are distinct |
| BridgeProtocol.DecodeRequest | src/main/kotlin/com/massapay/agent/bridge/BridgeProtocol.kt:12-16 | a request is read exactly from an object whose `id` and `method` are quoted strings and whose `params`, if present, is an object; it carries their contents, and no parameters when `params` is absent |
| BridgeProtocol.RequestRoundTrip | src/main/kotlin/com/massapay/agent/bridge/BridgeProtocol.kt:12-16 | every request is read back unchanged from its JSON form |
| BridgeProtocol.DecodeRequestIgnoresUnknown | src/main/kotlin/com/massapay/agent/bridge/BridgeServer.kt:24-27 | members other than id, method and params do not change how a request is read (`ignoreUnknownKeys`) |
| BridgeProtocol.DecodeRequestDefaultParams | src/main/kotlin/com/massapay/agent/bridge/BridgeProtocol.kt:12-16 | a request without `params` decodes with an empty parameter map |
| BridgeProtocol.ResponseRoundTrip | src/main/kotlin/com/massapay/agent/bridge/BridgeProtocol.kt:20-25 | every response is read back from its JSON form, except that a JSON-null result reads back as absent |
| BridgeProtocol.EventRoundTrip | src/main/kotlin/com/massapay/agent/bridge/BridgeProtocol.kt:29-32 | every event is read back unchanged from its JSON form |
| BridgeProtocol.EncodeResponse | src/main/kotlin/com/massapay/agent/bridge/BridgeProtocol.kt:20-25 | a response is written as an object with exactly `id`, `success`, `result` and `error` |
| BridgeProtocol.EncodeEvent | src/main/kotlin/com/massapay/agent/bridge/BridgeProtocol.kt:29-32 | an event is written as an object with exactly `type` and `data` |
| BridgeProtocol.NodeStatusRoundTrip | src/main/kotlin/com/massapay/agent/bridge/BridgeProtocol.kt:36-45 | every node status, including its 32- and 64-bit fields and its absent ones, is read back unchanged |
| BridgeProtocol.StakingInfoRoundTrip | src/main/kotlin/com/massapay/agent/bridge/BridgeProtocol.kt:49-58 | every staking info is read back unchanged |
| BridgeProtocol.ReadInt | src/main/kotlin/com/massapay/agent/bridge/BridgeProtocol.kt:39 | an integer member is read only inside its target type's range |
| BridgeProtocol.StringValue | src/main/kotlin/com/massapay/agent/bridge/BridgeProtocol.kt:13-14 | a string field is read exactly from a quoted string primitive, as its content |
| Json.AsObject | src/main/kotlin/com/massapay/agent/bridge/MassaNodeClient.kt:144 | `jsonObject` succeeds exactly on an object and gives its members |
| Json.AsArray | src/main/kotlin/com/massapay/agent/bridge/MassaNodeClient.kt:226 | `jsonArray` succeeds exactly on an array and gives its items |
| Json.Content | src/main/kotlin/com/massapay/agent/bridge/MassaNodeClient.kt:148 | `jsonPrimitive.content` succeeds exactly on primitives and null, gives a primitive's text and "null" for null |
| Json.OptContent | src/main/kotlin/com/massapay/agent/bridge/BridgeServer.kt:248-250 | a missing member reads as null and a primitive as its text; it throws exactly on an array or object |
| Json.OptIntIn | src/main/kotlin/com/massapay/agent/bridge/MassaNodeClient.kt:241-244 | `intOrNull`/`longOrNull` throw exactly on an array or object, and any value read lies in the target type's range |
| Json.OptObject | src/main/kotlin/com/massapay/agent/bridge/MassaNodeClient.kt:193 | a missing member reads as null; it throws exactly when the member is not an object |
| Json.OptArray | src/main/kotlin/com/massapay/agent/bridge/BridgeServer.kt:397-398 | a missing member reads as null; it throws exactly when the member is not an array |
| Json.Contents | src/main/kotlin/com/massapay/agent/bridge/BridgeServer.kt:415-417 | mapping `jsonPrimitive.content` over items succeeds exactly when no item is an array or object, and keeps each item's text in place |
| Json.StrArray | src/main/kotlin/com/massapay/agent/bridge/BridgeServer.kt:387-389 | a list of strings becomes an array of the same length holding each string in place |
| Json.ParseIntToString | src/main/kotlin/com/massapay/agent/bridge/MassaNodeClient.kt:241-244 | reading the decimal text of an in-range integer gives the integer back |
| Json.NatToStringValue | src/main/kotlin/com/massapay/agent/bridge/BridgeServer.kt:551 | the decimal text of a natural number denotes that number |
| Json.NumContentRoundTrip | src/main/kotlin/com/massapay/agent/bridge/MassaNodeClient.kt:241-244 | a number element's literal reads back as its integer |
| Decimal.ParseDecimal | src/main/kotlin/com/massapay/agent/bridge/MassaNodeClient.kt:234 | `toDoubleOrNull` rejects the empty text |
| Decimal.AddValue | src/main/kotlin/com/massapay/agent/bridge/MassaNodeClient.kt:233-235 | the sum of two amounts has the value of the sum of their values |
| Decimal.SumValue | src/main/kotlin/com/massapay/agent/bridge/MassaNodeClient.kt:233-235 | `sumOf` over the credits has the value of the sum of their values |
| Decimal.FormatRoundTrip | src/main/kotlin/com/massapay/agent/bridge/MassaNodeClient.kt:252 | the written total parses back to an amount of the same value |
| Decimal.FormatZero | src/main/kotlin/com/massapay/agent/bridge/MassaNodeClient.kt:235 | zero is written "0.0" |
| Decimal.Format | src/main/kotlin/com/massapay/agent/bridge/MassaNodeClient.kt:252 | the text is not empty and starts with '-' exactly for a negative amount |
| Decimal.Sum | src/main/kotlin/com/massapay/agent/bridge/MassaNodeClient.kt:233-235 | the sum of no credits is zero, and its scale is at least every amount's, so no digit is dropped |
| Decimal.Split | src/main/kotlin/com/massapay/agent/bridge/MassaNodeClient.kt:252 | the units split into an integer part and a fraction below one unit that make the units up again |
| Decimal.TrimZeros | src/main/kotlin/com/massapay/agent/bridge/MassaNodeClient.kt:252 | the fraction's trailing zeros are dropped |
| Base64.Utf8RoundTrip | src/main/kotlin/com/massapay/agent/bridge/MassaNodeClient.kt:382 | `toByteArray()` is UTF-8: decoding the bytes gives the text back |
| Base64.Encode | src/main/kotlin/com/massapay/agent/bridge/MassaNodeClient.kt:382 | the padded encoding is four characters per started group of three bytes |
| Base64.Base64RoundTrip | src/main/kotlin/com/massapay/agent/bridge/MassaNodeClient.kt:382 | decoding the encoding of any bytes gives the bytes back |
| Base64.CredentialsRoundTrip | src/main/kotlin/com/massapay/agent/bridge/MassaNodeClient.kt:380-382 | the Basic header decodes back to "user:password" |
| Base64.BasicAuthorization | src/main/kotlin/com/massapay/agent/bridge/MassaNodeClient.kt:380-382 | the header is one whose credentials read back as "user:password" |
| Base64.Utf8 | src/main/kotlin/com/massapay/agent/bridge/MassaNodeClient.kt:382 | each character takes at least one byte |
| Base64.DefaultAuthorization | src/main/kotlin/com/massapay/agent/bridge/MassaNodeClient.kt:355 | with the default password "massa123" the header is "Basic Om1hc3NhMTIz" |
| NodeRpc.PrivateRequest | src/main/kotlin/com/massapay/agent/bridge/MassaNodeClient.kt:371-388 | a private call goes to port 33034 with a Basic header whose credentials are an empty user and the password |
| NodeRpc.FirstAcceptedIndex | src/main/kotlin/com/massapay/agent/bridge/MassaNodeClient.kt:49-55 | detection stops at the first port whose probe is taken, after every earlier one was refused |
| NodeRpc.FirstAccepted | src/main/kotlin/com/massapay/agent/bridge/MassaNodeClient.kt:44-60 | a found port is one of the candidates and answered the probe; nothing is found exactly when no candidate answers |
| NodeRpc.FirstAcceptedAt | src/main/kotlin/com/massapay/agent/bridge/MassaNodeClient.kt:49-55 | the first answering port, whatever comes after it, is the one found |
| NodeRpc.ErrorMessage | src/main/kotlin/com/massapay/agent/bridge/MassaNodeClient.kt:148 | an error's message is its `message` content, "Unknown error" without one; it throws exactly when that member is an array or object |
| NodeRpc.Classify | src/main/kotlin/com/massapay/agent/bridge/MassaNodeClient.kt:141-162 | an answer comes only from an object body without `error`; a node error or a wrong-API outcome only from a readable error object |
| NodeRpc.ClassifyAnswer | src/main/kotlin/com/massapay/agent/bridge/MassaNodeClient.kt:146-162 | a call answers exactly when the body is an object without `error`, with its `result` or JSON null |
| NodeRpc.ClassifyWrongApi | src/main/kotlin/com/massapay/agent/bridge/MassaNodeClient.kt:149-157 | the wrong-API outcome comes exactly from an error object whose code reads as -32019 |
| NodeRpc.PrivateResult | src/main/kotlin/com/massapay/agent/bridge/MassaNodeClient.kt:391-405 | the private call succeeds exactly on an object body without `error` |
| NodeRpc.PublicPrivateAgree | src/main/kotlin/com/massapay/agent/bridge/MassaNodeClient.kt:391-402 | the private call reads every reply as the public one does, except that -32019 is an ordinary error there |
| NodeRpc.ContainsAt | src/main/kotlin/com/massapay/agent/bridge/MassaNodeClient.kt:165-166 | `contains` finds a text exactly when it starts at some position |
| NodeRpc.SettlePort | src/main/kotlin/com/massapay/agent/bridge/MassaNodeClient.kt:151-170 | a call leaves its own port, a fresh detection, or no port |
| NodeRpc.Rpc | src/main/kotlin/com/massapay/agent/bridge/MassaNodeClient.kt:118-173 | a successful call always leaves a port detected (which port: `RpcSucceeds`, `SettlePort`) |
| NodeRpc.RpcSucceeds | src/main/kotlin/com/massapay/agent/bridge/MassaNodeClient.kt:118-173 | a call succeeds exactly when a port is known or found and the node answers on it; a successful call keeps that port |
| NodeRpc.RpcNoNode | src/main/kotlin/com/massapay/agent/bridge/MassaNodeClient.kt:120-125 | with no port known and none answering, the call fails with "No Massa node found…" and no port |
| NodeRpc.RpcKeepsPublicPort | src/main/kotlin/com/massapay/agent/bridge/MassaNodeClient.kt:118-173 | the detected port stays one of the public API ports |
| NodeRpc.RpcPortAfterFailure | src/main/kotlin/com/massapay/agent/bridge/MassaNodeClient.kt:163-170 | after an exception the port is forgotten when the message mentions "Connection refused" or "timeout", and the same port is kept otherwise |
| NodeRpc.StringList | src/main/kotlin/com/massapay/agent/bridge/MassaNodeClient.kt:261 | a list is read exactly from an array without array or object items, one string per item, in order |
| NodeRpc.StringListRoundTrip | src/main/kotlin/com/massapay/agent/bridge/MassaNodeClient.kt:261 | a list of strings is read back unchanged |
| NodeRpc.NodeStatusFrom | src/main/kotlin/com/massapay/agent/bridge/MassaNodeClient.kt:190-212 | a status is built exactly from a well-formed answer, always connected, with the client's host and port and a peer count |
| NodeRpc.NodeStatusFromReads | src/main/kotlin/com/massapay/agent/bridge/MassaNodeClient.kt:194-208 | version, genesis timestamp, cycle, period and peer count each land in their field |
| NodeRpc.NodeStatusFromEmpty | src/main/kotlin/com/massapay/agent/bridge/MassaNodeClient.kt:200-208 | an empty answer gives a connected status with nothing but zero peers |
| NodeRpc.CreditAmount | src/main/kotlin/com/massapay/agent/bridge/MassaNodeClient.kt:234 | a credit's amount throws exactly when the credit is not an object or its amount is an array or object |
| NodeRpc.CreditAmounts | src/main/kotlin/com/massapay/agent/bridge/MassaNodeClient.kt:233-235 | every credit gives its own amount, in order |
| NodeRpc.StakingInfoFrom | src/main/kotlin/com/massapay/agent/bridge/MassaNodeClient.kt:217-253 | an empty answer fails "Address not found"; success reads the first entry, and every field comes from its member |
| NodeRpc.BalanceFallback | src/main/kotlin/com/massapay/agent/bridge/MassaNodeClient.kt:242-244 | the balance is the candidate balance, else the final balance, else "0" |
| NodeRpc.ActiveRollsFallback | src/main/kotlin/com/massapay/agent/bridge/MassaNodeClient.kt:248-249 | active rolls are `active_rolls` when it reads as an Int, else the candidate roll count, else 0 |
| NodeRpc.IntOr | src/main/kotlin/com/massapay/agent/bridge/MassaNodeClient.kt:246-247 | an integer member with a fallback throws exactly on an array or object |
| NodeRpc.DeferredCreditsExact | src/main/kotlin/com/massapay/agent/bridge/MassaNodeClient.kt:232-252 | the written total reads back as exactly the sum of the credits' amounts |
| NodeRpc.NoDeferredCredits | src/main/kotlin/com/massapay/agent/bridge/MassaNodeClient.kt:235 | without deferred credits the total is "0.0" |
| NodeRpc.DeferredTotal | src/main/kotlin/com/massapay/agent/bridge/MassaNodeClient.kt:232-235 | reading the total throws only when the address entry has `deferred_credits` |
| NodeRpc.PrepareRolls | src/main/kotlin/com/massapay/agent/bridge/MassaNodeClient.kt:271-300 | a roll operation is an object with exactly type, address, roll_count and fee |
| NodeRpc.PrepareRollsReads | src/main/kotlin/com/massapay/agent/bridge/MassaNodeClient.kt:271-300 | the prepared operation reads back as what it was made from |
| NodeRpc.StatusOf | src/main/kotlin/com/massapay/agent/bridge/MassaNodeClient.kt:190-212 | a status read from a call is connected and carries the client's host |
| NodeClient.MassaNodeClient.constructor | src/main/kotlin/com/massapay/agent/bridge/MassaNodeClient.kt:16-24 | a new client has no detected port and the password "massa123" |
| NodeClient.MassaNodeClient.AutoDetectPort | src/main/kotlin/com/massapay/agent/bridge/MassaNodeClient.kt:44-60 | the loop returns the first answering public port and stores it; the stored port is left alone when none answers |
| NodeClient.MassaNodeClient.RpcCall | src/main/kotlin/com/massapay/agent/bridge/MassaNodeClient.kt:118-173 | the result and the new detected port are those of `Rpc`; the password is unchanged |
| NodeClient.MassaNodeClient.Initialize | src/main/kotlin/com/massapay/agent/bridge/MassaNodeClient.kt:108-113 | ready exactly when a port is known or found and `get_status` succeeds on it |
| NodeClient.MassaNodeClient.IsNodeConnected | src/main/kotlin/com/massapay/agent/bridge/MassaNodeClient.kt:178-185 | connected exactly when `get_status` succeeds |
| NodeClient.MassaNodeClient.GetNodeStatus | src/main/kotlin/com/massapay/agent/bridge/MassaNodeClient.kt:190-212 | the status read from the `get_status` call, with the port detected after it |
| NodeClient.MassaNodeClient.GetStakingInfo | src/main/kotlin/com/massapay/agent/bridge/MassaNodeClient.kt:217-253 | the staking info read from `get_addresses` on `[[address]]` |
| NodeClient.MassaNodeClient.GetStakingAddresses | src/main/kotlin/com/massapay/agent/bridge/MassaNodeClient.kt:258-266 | the string list of the public `get_staking_addresses` answer |
| NodeClient.MassaNodeClient.SendOperations | src/main/kotlin/com/massapay/agent/bridge/MassaNodeClient.kt:305-313 | the operation ids the node answers to `send_operations` |
| NodeClient.MassaNodeClient.GetOperations | src/main/kotlin/com/massapay/agent/bridge/MassaNodeClient.kt:318-329 | the raw `get_operations` answer on `[[ids]]` |
| NodeClient.MassaNodeClient.GetNetworkInfo | src/main/kotlin/com/massapay/agent/bridge/MassaNodeClient.kt:334-340 | the raw `get_status` answer |
| NodeClient.MassaNodeClient.ResetPortDetection | src/main/kotlin/com/massapay/agent/bridge/MassaNodeClient.kt:350-352 | the port is forgotten and the password kept |
| NodeClient.MassaNodeClient.SetNodePassword | src/main/kotlin/com/massapay/agent/bridge/MassaNodeClient.kt:360-362 | the password is replaced and the port kept |
| NodeClient.MassaNodeClient.PrivateRpcCall | src/main/kotlin/com/massapay/agent/bridge/MassaNodeClient.kt:368-407 | the result is the private reading of the node's reply to the authenticated request on port 33034 |
| NodeClient.MassaNodeClient.AddStakingSecretKey | src/main/kotlin/com/massapay/agent/bridge/MassaNodeClient.kt:413-425 | true exactly when `add_staking_secret_keys` on `[[key]]` succeeds, else its failure |
| NodeClient.MassaNodeClient.RemoveStakingAddress | src/main/kotlin/com/massapay/agent/bridge/MassaNodeClient.kt:430-442 | true exactly when `remove_staking_addresses` on `[[address]]` succeeds, else its failure |
| NodeClient.MassaNodeClient.GetStakingAddressesPrivate | src/main/kotlin/com/massapay/agent/bridge/MassaNodeClient.kt:447-455 | the string list of the private `get_staking_addresses` answer |
| ServerState.RemoveFirst | src/main/kotlin/com/massapay/agent/bridge/BridgeServer.kt:134 | `list - device` drops one element when it is there and nothing otherwise |
| ServerState.RemoveFirstMultiset | src/main/kotlin/com/massapay/agent/bridge/BridgeServer.kt:134 | `list - device` takes exactly one occurrence out of the multiset |
| ServerState.RemoveFirstDistinct | src/main/kotlin/com/massapay/agent/bridge/BridgeServer.kt:134 | from a list without repeats, `list - device` leaves exactly the others, still without repeats |
| ServerState.Connect | src/main/kotlin/com/massapay/agent/bridge/BridgeServer.kt:260-264 | the device is filed under the session, added once to the list, and announced |
| ServerState.ForgetDevice | src/main/kotlin/com/massapay/agent/bridge/BridgeServer.kt:283-289 | a known device leaves the map and the list and is announced once; an unknown session changes nothing |
| ServerState.Teardown | src/main/kotlin/com/massapay/agent/bridge/BridgeServer.kt:198-206 | the session closes and its device, if any, is gone |
| ServerState.Disconnect | src/main/kotlin/com/massapay/agent/bridge/BridgeServer.kt:282-291 | the session's device leaves the map and the session stays open |
| ServerState.DisconnectDevice | src/main/kotlin/com/massapay/agent/bridge/BridgeServer.kt:145-170 | an unknown id changes nothing |
| ServerState.ListingOf | src/main/kotlin/com/massapay/agent/bridge/BridgeServer.kt:120 | every set of session ids has an order that lists each of them once |
| ServerState.DisconnectAllClears | src/main/kotlin/com/massapay/agent/bridge/BridgeServer.kt:117-140 | afterwards no device is left in the map and exactly the sessions that had one are closed; the list is covered by `DisconnectAllEmptiesList` and `DisconnectAllList` |
| ServerState.DisconnectAll | src/main/kotlin/com/massapay/agent/bridge/BridgeServer.kt:117-140 | the running flag is kept, events are only added, and every session taken is closed and without a device |
| ServerState.DisconnectAllEmptiesList | src/main/kotlin/com/massapay/agent/bridge/BridgeServer.kt:121-137 | starting from a list in step with the map, the published list ends empty and still in step |
| ServerState.DisconnectAllList | src/main/kotlin/com/massapay/agent/bridge/BridgeServer.kt:121-137 | whatever the list held, it loses exactly the map's devices, one occurrence each |
| ServerState.DisconnectAllThenClose | src/main/kotlin/com/massapay/agent/bridge/BridgeServer.kt:198-206 | a connection that ends after all devices were disconnected emits no second disconnect event |
| ServerState.DisconnectAllEvents | src/main/kotlin/com/massapay/agent/bridge/BridgeServer.kt:121-137 | one disconnect event is emitted per device, in the order taken |
| ServerState.DisconnectAllSnoc | src/main/kotlin/com/massapay/agent/bridge/BridgeServer.kt:121-137 | closing one more session after the others is one more teardown |
| ServerState.TeardownKnown | src/main/kotlin/com/massapay/agent/bridge/BridgeServer.kt:199-206 | closing a session with a device announces that device once |
| ServerState.ConnectFreshConsistent | src/main/kotlin/com/massapay/agent/bridge/BridgeServer.kt:260-263 | connecting a session without a device keeps the list holding exactly the map's devices, once each |
| ServerState.ReconnectInconsistent | src/main/kotlin/com/massapay/agent/bridge/BridgeServer.kt:260-263 | connecting again on a session with a device leaves the list out of step with the map |
| ServerState.ForgetConsistent | src/main/kotlin/com/massapay/agent/bridge/BridgeServer.kt:283-287 | forgetting a device keeps the list in step with the map |
| ServerState.DisconnectedAtMostOnce | src/main/kotlin/com/massapay/agent/bridge/BridgeServer.kt:145-291 | when a session's device goes by request or by `disconnectDevice` and the connection then ends, at most one disconnect event is emitted for it, with each step atomic (the interleaving that breaks this in the source is under "Left out") |
| ServerState.ConnectDisconnectClose | src/main/kotlin/com/massapay/agent/bridge/BridgeServer.kt:198-291 | connect, disconnect and close emit exactly one connect and one disconnect event for the device; for a session without a device and a device not listed, the map, the list and the published state come back as before, with only the session closed |
| ServerState.FreshUnlisted | src/main/kotlin/com/massapay/agent/bridge/BridgeServer.kt:260-263 | with the list in step with the map, the device of a session without one is not yet listed |
| ServerState.Start | src/main/kotlin/com/massapay/agent/bridge/BridgeServer.kt:52-99 | a running server is left alone; otherwise it listens on the bridge port and announces its address, changing only the running flag, host and port of the published state and keeping sessions and devices, or only reports the failure and changes nothing else |
| ServerState.Stop | src/main/kotlin/com/massapay/agent/bridge/BridgeServer.kt:104-112 | the server stops and says so; only the running flag of the published state changes, and sessions and devices are kept |
| ServerState.Broadcast | src/main/kotlin/com/massapay/agent/bridge/BridgeServer.kt:531-540 | the event's JSON is appended once to every open session and to nothing else |
| ServerState.PollEdgeTriggered | src/main/kotlin/com/massapay/agent/bridge/BridgeServer.kt:500-518 | a tick records the reading; it broadcasts exactly when the reading changed; the status changes only when connected with a status |
| ServerState.PollRepeatSilent | src/main/kotlin/com/massapay/agent/bridge/BridgeServer.kt:503-512 | a second tick with the same reading broadcasts nothing |
| ServerState.Poll | src/main/kotlin/com/massapay/agent/bridge/BridgeServer.kt:500-518 | a tick records the reading and leaves the devices, the list and the events alone |
| ServerState.Reading | src/main/kotlin/com/massapay/agent/bridge/BridgeServer.kt:503-512 | the reading is recorded; the same reading as before changes nothing; the status and the devices are kept |
| ServerState.UpdateNodeConfig | src/main/kotlin/com/massapay/agent/bridge/BridgeServer.kt:582-588 | only the published node address and port change |
| ServerState.RecordStaking | src/main/kotlin/com/massapay/agent/bridge/BridgeServer.kt:334-337 | only the session's device changes, gaining the staking info and the wallet address; sessions and events are kept |
| ServerState.RecordStakingConsistent | src/main/kotlin/com/massapay/agent/bridge/BridgeServer.kt:334-337 | rebuilding the list from the map puts them back in step, whatever state the list was in |
| Dispatch.Refusal | src/main/kotlin/com/massapay/agent/bridge/BridgeServer.kt:327 | a refusal is a failure without a result |
| Dispatch.Answered | src/main/kotlin/com/massapay/agent/bridge/BridgeServer.kt:305-313 | the response succeeds exactly when the node call did, and never carries both a result and an error |
| Dispatch.ConnectStep | src/main/kotlin/com/massapay/agent/bridge/BridgeServer.kt:247-280 | a handled connect answers well-shaped, keeps the sessions and the running flag, and only adds events |
| Dispatch.DisconnectStep | src/main/kotlin/com/massapay/agent/bridge/BridgeServer.kt:282-291 | disconnect keeps the port and the sessions and answers well-shaped |
| Dispatch.PingStep | src/main/kotlin/com/massapay/agent/bridge/BridgeServer.kt:293-301 | ping changes nothing |
| Dispatch.NodeStatusStep | src/main/kotlin/com/massapay/agent/bridge/BridgeServer.kt:303-314 | the node status request changes no server state |
| Dispatch.NetworkInfoStep | src/main/kotlin/com/massapay/agent/bridge/BridgeServer.kt:316-323 | the network info request changes no server state |
| Dispatch.StakingInfoStep | src/main/kotlin/com/massapay/agent/bridge/BridgeServer.kt:325-348 | a handled staking-info request keeps the sessions and only adds events |
| Dispatch.RollsStep | src/main/kotlin/com/massapay/agent/bridge/BridgeServer.kt:350-378 | buying or selling rolls changes nothing and calls no node |
| Dispatch.StakingAddressesStep | src/main/kotlin/com/massapay/agent/bridge/BridgeServer.kt:380-394 | listing staking addresses changes nothing |
| Dispatch.SendOperationsStep | src/main/kotlin/com/massapay/agent/bridge/BridgeServer.kt:396-412 | sending operations changes no server state |
| Dispatch.OperationsStep | src/main/kotlin/com/massapay/agent/bridge/BridgeServer.kt:414-425 | reading operations changes no server state |
| Dispatch.AddStakingKeyStep | src/main/kotlin/com/massapay/agent/bridge/BridgeServer.kt:428-452 | adding a key changes nothing on the server and leaves the public port alone |
| Dispatch.RemoveStakingKeyStep | src/main/kotlin/com/massapay/agent/bridge/BridgeServer.kt:454-475 | removing a key changes nothing on the server and leaves the public port alone |
| Dispatch.RewardsStep | src/main/kotlin/com/massapay/agent/bridge/BridgeServer.kt:478-491 | the rewards request changes nothing |
| Dispatch.Route | src/main/kotlin/com/massapay/agent/bridge/BridgeServer.kt:218-234 | a name selects only the handler of the method so named, never `get_addresses` |
| Dispatch.RouteNames | src/main/kotlin/com/massapay/agent/bridge/BridgeServer.kt:218-234 | every method but `get_addresses` selects its own handler, and only names of those methods select one |
| Dispatch.Dispatch | src/main/kotlin/com/massapay/agent/bridge/BridgeServer.kt:218-234 | every handled request answers well-shaped, keeps the sessions and the running flag, and only adds events |
| Dispatch.DispatchEchoesId | src/main/kotlin/com/massapay/agent/bridge/BridgeServer.kt:218-290 | every handled request is answered under its own id, except `disconnect`, which is answered under "disconnect" |
| Dispatch.Handle | src/main/kotlin/com/massapay/agent/bridge/BridgeServer.kt:213-243 | the response is well shaped; its id is the request's, "disconnect" for `disconnect`, or "error" when the frame is unreadable or the handler throws |
| Dispatch.HandleReplies | src/main/kotlin/com/massapay/agent/bridge/BridgeServer.kt:213-243 | every message gets exactly one well-shaped response, on its own session only, with the id `Handle` states |
| Dispatch.HandleUnreadable | src/main/kotlin/com/massapay/agent/bridge/BridgeServer.kt:238-242 | an unreadable frame or a throwing handler is answered "error" with the exception's message and changes nothing else |
| Dispatch.UnknownMethod | src/main/kotlin/com/massapay/agent/bridge/BridgeServer.kt:233 | an unknown method is refused by name and changes nothing |
| Dispatch.AddressChecked | src/main/kotlin/com/massapay/agent/bridge/BridgeServer.kt:325-491 | every handler that needs an address refuses a request without one and throws on an array or object |
| Dispatch.RollCountChecked | src/main/kotlin/com/massapay/agent/bridge/BridgeServer.kt:353-354 | a roll request with an address but a missing roll count, or one that is not a 32-bit integer, is refused with "Roll count required"; an array or object there throws |
| Dispatch.SecretKeyChecked | src/main/kotlin/com/massapay/agent/bridge/BridgeServer.kt:429-430 | adding a staking key without a secret key is refused with "Secret key required"; an array or object there throws |
| Dispatch.OperationsChecked | src/main/kotlin/com/massapay/agent/bridge/BridgeServer.kt:397-398 | sending operations without `operations` is refused with "Operations required"; a non-array there throws |
| Dispatch.OperationIdsChecked | src/main/kotlin/com/massapay/agent/bridge/BridgeServer.kt:415-417 | reading operations without `operationIds` is refused with "Operation IDs required"; a non-array there, or a structured id, throws |
| Dispatch.DispatchKeyed | src/main/kotlin/com/massapay/agent/bridge/BridgeServer.kt:252-337 | every handler files a device only under its own session id |
| Dispatch.StakingInfoKeepsStep | src/main/kotlin/com/massapay/agent/bridge/BridgeServer.kt:334-337 | staking info either changes nothing or records the info and leaves the list in step with the map |
| Dispatch.DispatchConsistent | src/main/kotlin/com/massapay/agent/bridge/BridgeServer.kt:218-234 | every handler but a repeated connect keeps the list in step with the map |
| Dispatch.ReconnectDuplicates | src/main/kotlin/com/massapay/agent/bridge/BridgeServer.kt:260-263 | a repeated connect on one session breaks that agreement |
| Dispatch.ConnectAnswer | src/main/kotlin/com/massapay/agent/bridge/BridgeServer.kt:247-279 | connect files and announces the device, named and placed from `deviceName` and `platform` ("Unknown" when absent), with the `walletAddress` given, if any, and the connection time; it reports the node connected exactly when its status was read, and adds the status then |
| Dispatch.ConnectResponseFields | src/main/kotlin/com/massapay/agent/bridge/BridgeServer.kt:269-279 | the connect answer holds the session id, the connected flag and, exactly when read, the status |
| Dispatch.RollsAnswer | src/main/kotlin/com/massapay/agent/bridge/BridgeServer.kt:350-378 | a successful roll answer reads back the type, the address, the roll count and the fee (0.01 by default) |
| Dispatch.Tick | src/main/kotlin/com/massapay/agent/bridge/BridgeServer.kt:498-520 | the reading recorded is whether the first `get_status` call succeeded; devices and events are kept |
| Dispatch.TickRecords | src/main/kotlin/com/massapay/agent/bridge/BridgeServer.kt:496-526 | a poller tick records whether the node answered, broadcasts only on a change, and keeps the last status while the node is down |
| Server.CloseAt | src/main/kotlin/com/massapay/agent/bridge/BridgeServer.kt:189-192 | the frames are read up to the first close frame |
| Server.ReplyReadsBack | src/main/kotlin/com/massapay/agent/bridge/BridgeServer.kt:236 | the frame sent for a well-shaped response reads back as well shaped |
| Server.ValuesList | src/main/kotlin/com/massapay/agent/bridge/BridgeServer.kt:337 | `values.toList()` lists each device of the map once, in the order its keys are visited |
| Server.BridgeServer.constructor | src/main/kotlin/com/massapay/agent/bridge/BridgeServer.kt:21-47 | a new server is stopped, without sessions or devices, with default state and a fresh node client for the configured host |
| Server.BridgeServer.Start | src/main/kotlin/com/massapay/agent/bridge/BridgeServer.kt:52-99 | the server's new state is `ServerState.Start` of the old one |
| Server.BridgeServer.Stop | src/main/kotlin/com/massapay/agent/bridge/BridgeServer.kt:104-112 | the server's new state is `ServerState.Stop` of the old one |
| Server.BridgeServer.Teardown | src/main/kotlin/com/massapay/agent/bridge/BridgeServer.kt:198-206 | the session and its device are removed as `ServerState.Teardown` says |
| Server.BridgeServer.DisconnectDevice | src/main/kotlin/com/massapay/agent/bridge/BridgeServer.kt:145-170 | the new state is `ServerState.DisconnectDevice` of the old one |
| Server.BridgeServer.DisconnectAllDevices | src/main/kotlin/com/massapay/agent/bridge/BridgeServer.kt:117-140 | the loop closes the device sessions in a listing of the device map, as `DisconnectAll` says |
| Server.BridgeServer.Broadcast | src/main/kotlin/com/massapay/agent/bridge/BridgeServer.kt:531-540 | the event's frame is appended to every open session at once, as `ServerState.Broadcast` says |
| Server.BridgeServer.PollTick | src/main/kotlin/com/massapay/agent/bridge/BridgeServer.kt:498-520 | the new state and port are those of `Dispatch.Tick` |
| Server.BridgeServer.RecordReading | src/main/kotlin/com/massapay/agent/bridge/BridgeServer.kt:503-512 | the reading is recorded and broadcast on a change |
| Server.BridgeServer.GeneratePairingData | src/main/kotlin/com/massapay/agent/bridge/BridgeServer.kt:545-553 | a new pairing session id is stored and returned with the host, the bridge port and "pk_" and the time |
| Server.BridgeServer.UpdateNodeConfig | src/main/kotlin/com/massapay/agent/bridge/BridgeServer.kt:582-588 | the new state is `ServerState.UpdateNodeConfig` of the old one |
| Server.BridgeServer.HandleConnect | src/main/kotlin/com/massapay/agent/bridge/BridgeServer.kt:247-280 | the handler does what `ConnectStep` says |
| Server.BridgeServer.FileDevice | src/main/kotlin/com/massapay/agent/bridge/BridgeServer.kt:260-264 | the device is filed as `ServerState.Connect` says |
| Server.BridgeServer.HandleDisconnect | src/main/kotlin/com/massapay/agent/bridge/BridgeServer.kt:282-291 | the device is forgotten as `ServerState.Disconnect` says and "disconnect" succeeds |
| Server.BridgeServer.HandleGetNodeStatus | src/main/kotlin/com/massapay/agent/bridge/BridgeServer.kt:303-314 | the response and port are those of `NodeStatusStep` |
| Server.BridgeServer.HandleGetNetworkInfo | src/main/kotlin/com/massapay/agent/bridge/BridgeServer.kt:316-323 | the response and port are those of `NetworkInfoStep` |
| Server.BridgeServer.HandleGetStakingInfo | src/main/kotlin/com/massapay/agent/bridge/BridgeServer.kt:325-348 | the handler does what `StakingInfoStep` says, for the visiting order of the device map |
| Server.BridgeServer.RecordStaking | src/main/kotlin/com/massapay/agent/bridge/BridgeServer.kt:334-337 | the device records the info and the list is rebuilt, as `ServerState.RecordStaking` says |
| Server.BridgeServer.HandleGetStakingAddresses | src/main/kotlin/com/massapay/agent/bridge/BridgeServer.kt:380-394 | the response is that of `StakingAddressesStep` |
| Server.BridgeServer.HandleSendOperations | src/main/kotlin/com/massapay/agent/bridge/BridgeServer.kt:396-412 | the handler does what `SendOperationsStep` says |
| Server.BridgeServer.HandleGetOperations | src/main/kotlin/com/massapay/agent/bridge/BridgeServer.kt:414-425 | the handler does what `OperationsStep` says |
| Server.BridgeServer.HandleAddStakingKey | src/main/kotlin/com/massapay/agent/bridge/BridgeServer.kt:428-452 | the response is that of `AddStakingKeyStep` |
| Server.BridgeServer.HandleRemoveStakingKey | src/main/kotlin/com/massapay/agent/bridge/BridgeServer.kt:454-475 | the response is that of `RemoveStakingKeyStep` |
| Server.BridgeServer.HandleRequest | src/main/kotlin/com/massapay/agent/bridge/BridgeServer.kt:218-234 | routing runs the handler `Dispatch.Dispatch` selects |
| Server.BridgeServer.HandleMessage | src/main/kotlin/com/massapay/agent/bridge/BridgeServer.kt:213-243 | the state, port and response are those of `Dispatch.Handle` |
| Server.BridgeServer.Answer | src/main/kotlin/com/massapay/agent/bridge/BridgeServer.kt:185-243 | a text frame on an open session leaves exactly the registry, client port and response of its `Handle` step, whose one well-shaped reply is appended to that session |
| Server.BridgeServer.ServeFrame | src/main/kotlin/com/massapay/agent/bridge/BridgeServer.kt:183-194 | a text frame is answered by its `Handle` step with one well-shaped reply, and any other frame changes nothing |
| Server.BridgeServer.Serve | src/main/kotlin/com/massapay/agent/bridge/BridgeServer.kt:183-194 | the loop answers each text frame before the first close frame once, each frame's effect on devices, list, events and port being its `Handle` step (`Trace`), from the state before to the state after; other sessions are untouched |
| Server.BridgeServer.HandleConnection | src/main/kotlin/com/massapay/agent/bridge/BridgeServer.kt:175-208 | a connection gets one well-shaped reply per text frame before the close, the frames step the opened session's state by `Handle`, and the end state is `ServerState.Teardown` of the state served, so the device, if any, leaves map and list and is announced once |
| Server.ConnectFrameFiles | src/main/kotlin/com/massapay/agent/bridge/BridgeServer.kt:183-188 | a `connect` frame on a connection files the device under the session with the frame's time and announces it, unless reading its parameters throws |

## Left out

- Transport: the Ktor/Netty WebSocket server, WebSocket framing and the sending of close frames. A connection is a list of frames, and sent frames are appended to the session's list.
- The `/health` route (BridgeServer.kt:74-77) is not part of this model.
- `getLocalIpAddress` (BridgeServer.kt:558-577) is not part of this model. The address, or the exception `start` would report, is the `outcome` parameter of `Start`.
- Concurrency: coroutines, `scope.launch`, and interleavings between the poller, the handlers and `disconnectAllDevices`. Each step is atomic, so `stop` and `start` take effect at once rather than in a launched coroutine.
- ServerState.DisconnectedAtMostOnce: holds with each step atomic. `disconnectDevice` (BridgeServer.kt:148-164) and `disconnectAllDevices` (BridgeServer.kt:121-136) read the device and then suspend in `close`. They emit `DeviceDisconnected` without checking their own `remove`. A connection's `finally` (BridgeServer.kt:199-205) that runs during that suspension also removes the device and announces it, so the same device can be announced twice. This comes from reading the code and was not executed.
- ServerState.Stop: stopping the engine (BridgeServer.kt:106) closes the open connections, whose own `finally` teardown then closes each session and forgets its device. That follow-on teardown is not part of `Stop`, which keeps sessions and devices. It is `Teardown`, applied once per connection as it ends (`Server.BridgeServer.HandleConnection`).
- The polling loop's `delay(5000)` and its endless repetition: one tick is one call of `PollTick`.
- UUIDs and `System.currentTimeMillis()`: they are parameters. Each message is handled at one clock reading.
- JSON text: parsing frame text, printing JSON, and member order. A text frame arrives already parsed as a `Result<Json>`.
- Exception texts: the serialization library's messages are approximated by `CastMessage`, `MissingField` and `Malformed`.
- HTTP: OkHttp, its timeouts, the HTTP status code (only the body is read) and the content type.
- Logging: `println` output.
- Unused declarations: `isPrivateApi` and `PRIVATE_API_PORTS`.
- `NodeRpc.Url`: the `?: 33035` fallback of `rpcUrl` is never reached, because a call is made only with a port known.
- JSON-RPC ids: a probe's id is 1 and a call's id is the clock reading. Replies are not matched to ids.
- `Decimal.ParseDecimal`: it accepts only an optional sign, then digits with at most one '.'. Kotlin's `toDoubleOrNull` also accepts exponents, "NaN", "Infinity", hex floats, type suffixes, and leading or trailing whitespace and control characters (code points 0 to 32). Such amounts, " 1.5" among them, read here as 0.
- `Decimal.Format`: it writes exact decimals. It does not model binary rounding of doubles or the scientific notation Kotlin uses at or above 10^7 and below 10^-3.
- `NodeRpc.DeferredTotal`: the total is an exact sum, not a sum of doubles with rounding at each step.
- `Json.ParseInt`: it reads an optional sign then ASCII decimal digits, as Kotlin's `toIntOrNull` does. Digits of other scripts are not modelled. The serialization library's own number reading behind `intOrNull` may differ from this, for example on a leading '+'; the model does not follow it there.
- `NodeRpc.PeerCount`: a map's size is unbounded here. A count above 2^31-1 is capped, as a JVM collection's `size` would be.
- `ServerState.RecordStaking`: the order of `connectedDevices.values` is a ghost listing of the keys, not the order of a ConcurrentHashMap.
- `Server.BridgeServer.DisconnectAllDevices`: the order of `connectedDevices.toList()` is a ghost listing of the keys, not the order of a ConcurrentHashMap.
- `Server.BridgeServer.Serve`: an exception thrown while reading frames ends the loop in the source. The model has no such exception; a connection ends at the first close frame or the end of the frames.
- `Server.BridgeServer.HandleConnection`: the reply count is stated for a session that receives no broadcasts while it is open. The poller runs between connections in this model.
