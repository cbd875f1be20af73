/** The bridge server's registry of sessions and devices, the state it
    publishes and the events it emits, with each step of the server as a
    transition on a Registry value. */
module ServerState {
  import opened Wrappers
  import opened Json
  import opened BridgeProtocol

  /** The snapshot the server publishes to the user interface. */
  datatype BridgeServerState = BridgeServerState(
    isRunning: bool := false,
    host: string := "0.0.0.0",
    port: Int32 := 8765,
    nodeConnected: bool := false,
    nodeIp: string := "127.0.0.1",
    nodePort: Int32 := 33034,
    nodeStatus: Option<NodeStatus> := None,
    connectedDevices: seq<ConnectedDevice> := [])

  /** What the server tells the user interface. */
  datatype BridgeServerEvent =
    | Started(host: string, port: Int32)
    | Stopped
    | DeviceConnected(device: ConnectedDevice)
    | DeviceDisconnected(device: ConnectedDevice)
    | Error(message: string)

  /** Everything the server's steps change: whether it listens, the open
      sessions with the frames sent on each, the device of each session, the
      published state, and the events emitted so far. */
  datatype Registry = Registry(
    running: bool,
    sessions: map<string, seq<Json>>,
    devices: map<string, ConnectedDevice>,
    state: BridgeServerState,
    events: seq<BridgeServerEvent>)

  /** The registry of a server that was just built. */
  function Initial(): Registry {
    Registry(false, map[], map[], BridgeServerState(), [])
  }

  // ---------------------------------------------------------------------
  // Lists.

  /** Kotlin's `list - element`: the list without the first occurrence. */
  function RemoveFirst<T(==)>(xs: seq<T>, x: T): (r: seq<T>)
    ensures x in xs ==> |r| == |xs| - 1
    ensures x !in xs ==> r == xs
  {
    if xs == [] then []
    else if xs[0] == x then xs[1..]
    else [xs[0]] + RemoveFirst(xs[1..], x)
  }

  /** Removing one occurrence takes one x out of the multiset. */
  lemma {:induction false} RemoveFirstMultiset<T>(xs: seq<T>, x: T)
    ensures multiset(RemoveFirst(xs, x)) == multiset(xs) - multiset{x}
  {
    if xs != [] && xs[0] != x {
      RemoveFirstMultiset(xs[1..], x);
      assert xs == [xs[0]] + xs[1..];
    } else if xs != [] {
      assert xs == [xs[0]] + xs[1..];
    }
  }

  predicate Distinct<T(==)>(xs: seq<T>) {
    forall i, j :: 0 <= i < j < |xs| ==> xs[i] != xs[j]
  }

  /** From a list without repeats, removing x leaves the other elements,
      still without repeats. */
  lemma RemoveFirstDistinct<T>(xs: seq<T>, x: T)
    requires Distinct(xs)
    ensures Distinct(RemoveFirst(xs, x))
    ensures forall y :: y in RemoveFirst(xs, x) <==> y in xs && y != x
  {
    RemoveFirstMultiset(xs, x);
    var r := RemoveFirst(xs, x);
    forall y
      ensures y in r <==> y in xs && y != x
    {
      assert y in r <==> y in multiset(r);
      assert y in xs <==> y in multiset(xs);
      if x in xs {
        assert multiset(xs)[x] == 1 by { DistinctCount(xs, x); }
      }
    }
    forall i, j | 0 <= i < j < |r|
      ensures r[i] != r[j]
    {
      if r[i] == r[j] {
        assert multiset(r)[r[i]] >= 2 by { CountTwo(r, i, j); }
        assert multiset(xs)[r[i]] >= 2;
        DistinctCount(xs, r[i]);
      }
    }
  }

  /** In a list without repeats each element occurs once. */
  lemma {:induction false} DistinctCount<T>(xs: seq<T>, x: T)
    requires Distinct(xs)
    ensures multiset(xs)[x] <= 1
  {
    if xs != [] {
      assert xs == [xs[0]] + xs[1..];
      DistinctCount(xs[1..], x);
      if xs[0] == x {
        assert x !in xs[1..];
      }
    }
  }

  /** Two positions holding the same value make it occur twice. */
  lemma {:induction false} CountTwo<T>(xs: seq<T>, i: nat, j: nat)
    requires i < j < |xs| && xs[i] == xs[j]
    ensures multiset(xs)[xs[i]] >= 2
  {
    var x := xs[i];
    assert xs == xs[..i] + [x] + xs[i + 1..j] + [x] + xs[j + 1..];
  }

  // ---------------------------------------------------------------------
  // The device list and the device map.

  /** Each device is filed under its own session id. */
  predicate Keyed(devices: map<string, ConnectedDevice>) {
    forall id :: id in devices ==> devices[id].id == id
  }

  /** The published list holds each registered device once, and nothing else. */
  ghost predicate Consistent(r: Registry) {
    && Distinct(r.state.connectedDevices)
    && forall d :: d in r.state.connectedDevices <==> d in r.devices.Values
  }

  /** `handleConnect`: the device is filed under the session, appended to
      the published list, and announced once. */
  function Connect(r: Registry, sessionId: string, device: ConnectedDevice): (r': Registry)
    ensures r'.devices == r.devices[sessionId := device]
    ensures multiset(r'.state.connectedDevices) == multiset(r.state.connectedDevices) + multiset{device}
    ensures r'.events == r.events + [DeviceConnected(device)]
  {
    r.(devices := r.devices[sessionId := device],
       state := r.state.(connectedDevices := r.state.connectedDevices + [device]),
       events := r.events + [DeviceConnected(device)])
  }

  /** The session's device, if any, is taken out of the map and the list
      and announced as disconnected; otherwise nothing changes. */
  function ForgetDevice(r: Registry, sessionId: string): (r': Registry)
    ensures sessionId !in r'.devices && r'.sessions == r.sessions
    ensures sessionId !in r.devices ==> r' == r
    ensures sessionId in r.devices ==>
      && r'.devices == r.devices - {sessionId}
      && multiset(r'.state.connectedDevices) == multiset(r.state.connectedDevices) - multiset{r.devices[sessionId]}
      && r'.events == r.events + [DeviceDisconnected(r.devices[sessionId])]
  {
    if sessionId !in r.devices then r
    else
      var device := r.devices[sessionId];
      RemoveFirstMultiset(r.state.connectedDevices, device);
      r.(devices := r.devices - {sessionId},
         state := r.state.(connectedDevices := RemoveFirst(r.state.connectedDevices, device)),
         events := r.events + [DeviceDisconnected(device)])
  }

  /** `handleDisconnect`: the session's device is forgotten, and the
      session stays open. */
  function Disconnect(r: Registry, sessionId: string): (r': Registry)
    ensures sessionId !in r'.devices && r'.devices.Keys == r.devices.Keys - {sessionId}
    ensures r'.sessions == r.sessions && r'.running == r.running
  {
    ForgetDevice(r, sessionId)
  }

  /** The `finally` of `handleConnection`: the session closes and its
      device, if still there, is forgotten. */
  function Teardown(r: Registry, sessionId: string): (r': Registry)
    ensures sessionId !in r'.sessions && sessionId !in r'.devices
    ensures r'.sessions == r.sessions - {sessionId}
  {
    ForgetDevice(r.(sessions := r.sessions - {sessionId}), sessionId)
  }

  /** `disconnectDevice`: a known device is closed and forgotten; an
      unknown id changes nothing. */
  function DisconnectDevice(r: Registry, deviceId: string): (r': Registry)
    ensures deviceId !in r.devices ==> r' == r
  {
    if deviceId in r.devices then Teardown(r, deviceId) else r
  }

  /** `disconnectAllDevices`: each session of the snapshot, in the order
      taken, closed and forgotten. */
  function DisconnectAll(r: Registry, order: seq<string>): (r': Registry)
    ensures r'.running == r.running && r.events <= r'.events
    ensures r'.sessions.Keys <= r.sessions.Keys && r'.devices.Keys <= r.devices.Keys
    ensures forall id :: id in order ==> id !in r'.sessions && id !in r'.devices
    decreases |order|
  {
    if order == [] then r else DisconnectAll(Teardown(r, order[0]), order[1..])
  }

  /** Disconnecting one more session after the others. */
  lemma {:induction false} DisconnectAllSnoc(r: Registry, order: seq<string>, id: string)
    ensures DisconnectAll(r, order + [id]) == Teardown(DisconnectAll(r, order), id)
    decreases |order|
  {
    if order == [] {
      assert DisconnectAll(r, [id]) == DisconnectAll(Teardown(r, id), []);
    } else {
      assert (order + [id])[1..] == order[1..] + [id];
      DisconnectAllSnoc(Teardown(r, order[0]), order[1..], id);
    }
  }

  /** The ids listed once each, exactly those of the set. */
  ghost predicate IsListing(order: seq<string>, ids: set<string>) {
    Distinct(order) && (forall id :: id in order <==> id in ids)
  }

  /** Every finite set of ids can be listed. */
  lemma ListingOf(ids: set<string>) returns (order: seq<string>)
    ensures IsListing(order, ids)
    decreases |ids|
  {
    if ids == {} {
      order := [];
    } else {
      var x :| x in ids;
      var rest := ListingOf(ids - {x});
      order := [x] + rest;
      forall i, j | 0 <= i < j < |order|
        ensures order[i] != order[j]
      {
        if i == 0 {
          assert order[j] == rest[j - 1];
        }
      }
    }
  }

  /** The disconnect events of the devices under `order`, in that order. */
  function DisconnectEvents(devices: map<string, ConnectedDevice>, order: seq<string>): seq<BridgeServerEvent>
    requires forall i :: 0 <= i < |order| ==> order[i] in devices
  {
    seq(|order|, i requires 0 <= i < |order| => DeviceDisconnected(devices[order[i]]))
  }

  /** Taking the first listed session out leaves a listing of the rest. */
  lemma ListingTail(order: seq<string>, ids: set<string>)
    requires order != [] && IsListing(order, ids)
    ensures IsListing(order[1..], ids - {order[0]})
  {
    forall x
      ensures x in order[1..] <==> x in ids - {order[0]}
    {
      if x in order[1..] {
        var k :| 1 <= k < |order| && order[k] == x;
        assert order[0] != order[k];
      }
      if x in ids && x != order[0] {
        var k :| 0 <= k < |order| && order[k] == x;
        assert order[1..][k - 1] == x;
      }
    }
  }

  /** The events of a listing: the first device's, then the rest's. */
  lemma DisconnectEventsCons(devices: map<string, ConnectedDevice>, order: seq<string>)
    requires order != [] && IsListing(order, devices.Keys)
    ensures forall i :: 1 <= i < |order| ==> order[i] in devices - {order[0]}
    ensures DisconnectEvents(devices, order)
         == [DeviceDisconnected(devices[order[0]])] + DisconnectEvents(devices - {order[0]}, order[1..])
  {
    forall i | 1 <= i < |order|
      ensures order[i] in devices - {order[0]}
    {
      assert order[0] != order[i];
    }
  }

  /** Disconnecting all devices leaves no device and none of their
      sessions, and the server still running or not as before. */
  lemma {:induction false} DisconnectAllClears(r: Registry, order: seq<string>)
    requires IsListing(order, r.devices.Keys)
    ensures DisconnectAll(r, order).devices == map[]
    ensures DisconnectAll(r, order).sessions == r.sessions - r.devices.Keys
    ensures DisconnectAll(r, order).running == r.running
    decreases |order|
  {
    if order == [] {
      assert r.devices.Keys == {};
    } else {
      var id := order[0];
      var t := Teardown(r, id);
      assert DisconnectAll(r, order) == DisconnectAll(t, order[1..]);
      TeardownKeys(r, id);
      ListingTail(order, r.devices.Keys);
      DisconnectAllClears(t, order[1..]);
      RemoveBoth(r.sessions, r.devices.Keys, id);
    }
  }

  /** Disconnecting all devices keeps the list in step with the map, and
      so leaves the published list empty. */
  lemma {:induction false} DisconnectAllEmptiesList(r: Registry, order: seq<string>)
    requires IsListing(order, r.devices.Keys) && Keyed(r.devices) && Consistent(r)
    ensures Keyed(DisconnectAll(r, order).devices) && Consistent(DisconnectAll(r, order))
    ensures DisconnectAll(r, order).state.connectedDevices == []
    decreases |order|
  {
    if order != [] {
      var id := order[0];
      ForgetConsistent(r.(sessions := r.sessions - {id}), id);
      TeardownKeys(r, id);
      ListingTail(order, r.devices.Keys);
      DisconnectAllEmptiesList(Teardown(r, id), order[1..]);
    } else {
      assert DisconnectAll(r, order) == r;
      assert r.devices.Values == {};
      var list := r.state.connectedDevices;
      assert multiset(list) == multiset{} by {
        forall d
          ensures multiset(list)[d] == 0
        {
          assert d !in r.devices.Values;
        }
      }
    }
  }

  /** Without assuming the list was in step: the list loses exactly the
      devices that were in the map, one occurrence each. */
  lemma {:induction false} DisconnectAllList(r: Registry, order: seq<string>)
    requires IsListing(order, r.devices.Keys) && Keyed(r.devices)
    ensures multiset(DisconnectAll(r, order).state.connectedDevices)
         == multiset(r.state.connectedDevices) - multiset(r.devices.Values)
    decreases |order|
  {
    if order == [] {
      assert DisconnectAll(r, order) == r;
      assert r.devices.Values == {};
    } else {
      var id := order[0];
      var d := r.devices[id];
      var t := Teardown(r, id);
      TeardownKnown(r, id);
      ListingTail(order, r.devices.Keys);
      DisconnectAllList(t, order[1..]);
      KeyedValues(r.devices, id);
      MinusTwice(multiset(r.state.connectedDevices), multiset{d}, multiset(t.devices.Values));
    }
  }

  lemma MinusTwice<T>(a: multiset<T>, b: multiset<T>, c: multiset<T>)
    ensures (a - b) - c == a - (c + b)
  {
  }

  /** With each device under its own id, the device of one id is not among
      the others'. */
  lemma KeyedValues(devices: map<string, ConnectedDevice>, id: string)
    requires Keyed(devices) && id in devices
    ensures multiset(devices.Values) == multiset((devices - {id}).Values) + multiset{devices[id]}
  {
    var rest := devices - {id};
    assert devices.Values == rest.Values + {devices[id]} by {
      forall d | d in devices.Values
        ensures d in rest.Values + {devices[id]}
      {
        var k :| k in devices && devices[k] == d;
        if k != id {
          assert rest[k] == d;
        }
      }
    }
    assert devices[id] !in rest.Values;
  }

  /** Closing any session after all devices are disconnected emits
      nothing more. */
  lemma DisconnectAllThenClose(r: Registry, order: seq<string>, sessionId: string)
    requires IsListing(order, r.devices.Keys)
    ensures Teardown(DisconnectAll(r, order), sessionId).events == DisconnectAll(r, order).events
    ensures Teardown(DisconnectAll(r, order), sessionId).devices == map[]
  {
    DisconnectAllClears(r, order);
  }

  /** What closing one session does to the two key sets. */
  lemma TeardownKeys(r: Registry, sessionId: string)
    ensures Teardown(r, sessionId).devices.Keys == r.devices.Keys - {sessionId}
    ensures Teardown(r, sessionId).sessions == r.sessions - {sessionId}
    ensures Teardown(r, sessionId).running == r.running
  {
  }

  /** Closing a session that has a device announces that device once. */
  lemma TeardownKnown(r: Registry, sessionId: string)
    requires sessionId in r.devices
    ensures Teardown(r, sessionId).devices == r.devices - {sessionId}
    ensures multiset(Teardown(r, sessionId).state.connectedDevices)
         == multiset(r.state.connectedDevices) - multiset{r.devices[sessionId]}
    ensures Teardown(r, sessionId).events == r.events + [DeviceDisconnected(r.devices[sessionId])]
  {
  }

  lemma RemoveBoth(m: map<string, seq<Json>>, b: set<string>, x: string)
    requires x in b
    ensures (m - {x}) - (b - {x}) == m - b
  {
  }

  /** Disconnecting all devices emits one event per device, in the order
      taken, and nothing else. */
  lemma {:induction false} DisconnectAllEvents(r: Registry, order: seq<string>)
    requires IsListing(order, r.devices.Keys)
    ensures DisconnectAll(r, order).events == r.events + DisconnectEvents(r.devices, order)
    decreases |order|
  {
    if order != [] {
      var id := order[0];
      var t := Teardown(r, id);
      var first := [DeviceDisconnected(r.devices[id])];
      assert t.devices == r.devices - {id} && t.events == r.events + first by {
        TeardownKnown(r, id);
      }
      assert IsListing(order[1..], t.devices.Keys) by {
        ListingTail(order, r.devices.Keys);
      }
      DisconnectEventsCons(r.devices, order);
      var rest := DisconnectEvents(t.devices, order[1..]);
      assert DisconnectAll(r, order).events == t.events + rest by {
        DisconnectAllEvents(t, order[1..]);
      }
      assert (r.events + first) + rest == r.events + (first + rest);
    }
  }

  // ---------------------------------------------------------------------
  // Keeping the list and the map in step.

  /** Connecting a session that has no device keeps the list in step. */
  lemma ConnectFreshConsistent(r: Registry, sessionId: string, device: ConnectedDevice)
    requires Keyed(r.devices) && Consistent(r)
    requires sessionId !in r.devices && device.id == sessionId
    ensures Keyed(Connect(r, sessionId, device).devices)
    ensures Consistent(Connect(r, sessionId, device))
  {
    var r' := Connect(r, sessionId, device);
    assert device !in r.state.connectedDevices;
    forall d
      ensures d in r'.state.connectedDevices <==> d in r'.devices.Values
    {
      if d in r.state.connectedDevices {
        var k :| k in r.devices && r.devices[k] == d;
        assert r'.devices[k] == d;
      }
      if d == device {
        assert r'.devices[sessionId] == d;
      }
      if d in r'.devices.Values {
        var k :| k in r'.devices && r'.devices[k] == d;
        if k != sessionId {
          assert r.devices[k] == d;
        }
      }
    }
  }

  /** Connecting again on a session that already has a device breaks the
      list: the map keeps only the new device, the list keeps both. */
  lemma ReconnectInconsistent(r: Registry, sessionId: string, device: ConnectedDevice)
    requires Keyed(r.devices) && Consistent(r)
    requires sessionId in r.devices && device.id == sessionId
    ensures !Consistent(Connect(r, sessionId, device))
  {
    var r' := Connect(r, sessionId, device);
    var old_ := r.devices[sessionId];
    var list := r'.state.connectedDevices;
    assert old_ in r.devices.Values;
    if old_ == device {
      var i :| 0 <= i < |r.state.connectedDevices| && r.state.connectedDevices[i] == old_;
      assert list[i] == list[|list| - 1];
    } else {
      assert old_ in list;
      assert old_ !in r'.devices.Values by {
        forall k | k in r'.devices
          ensures r'.devices[k] != old_
        {
          if k != sessionId {
            assert r.devices[k].id == k;
          }
        }
      }
    }
  }

  /** Forgetting a device keeps the list in step. */
  lemma ForgetConsistent(r: Registry, sessionId: string)
    requires Keyed(r.devices) && Consistent(r)
    ensures Keyed(ForgetDevice(r, sessionId).devices)
    ensures Consistent(ForgetDevice(r, sessionId))
  {
    if sessionId in r.devices {
      var device := r.devices[sessionId];
      var r' := ForgetDevice(r, sessionId);
      RemoveFirstDistinct(r.state.connectedDevices, device);
      forall d
        ensures d in r'.state.connectedDevices <==> d in r'.devices.Values
      {
        if d in r.devices.Values && d != device {
          var k :| k in r.devices && r.devices[k] == d;
          assert k != sessionId;
          assert r'.devices[k] == d;
        }
        if d in r'.devices.Values {
          var k :| k in r'.devices && r'.devices[k] == d;
          assert r.devices[k] == d && d.id == k;
        }
      }
    }
  }

  /** The disconnect events each step emits for a device. */
  function DisconnectCount(events: seq<BridgeServerEvent>): nat {
    if events == [] then 0
    else DisconnectCount(events[..|events| - 1]) + (if events[|events| - 1].DeviceDisconnected? then 1 else 0)
  }

  lemma {:induction false} DisconnectCountAppend(a: seq<BridgeServerEvent>, b: seq<BridgeServerEvent>)
    ensures DisconnectCount(a + b) == DisconnectCount(a) + DisconnectCount(b)
    decreases |b|
  {
    if b == [] {
      assert a + b == a;
    } else {
      DisconnectCountAppend(a, b[..|b| - 1]);
      assert (a + b)[..|a + b| - 1] == a + b[..|b| - 1];
    }
  }

  /** Removing the element just appended, when it was not there before,
      gives the list back. */
  lemma {:induction false} RemoveFirstAppended<T>(xs: seq<T>, x: T)
    requires x !in xs
    ensures RemoveFirst(xs + [x], x) == xs
  {
    if xs != [] {
      assert (xs + [x])[1..] == xs[1..] + [x];
      RemoveFirstAppended(xs[1..], x);
      assert xs == [xs[0]] + xs[1..];
    }
  }

  /** Connect, then disconnect, then close the session: exactly one
      disconnect event, for the connected device; and when the session had
      no device and the device was not listed, the map, the list and the
      published state are as before, with only the session gone. */
  lemma ConnectDisconnectClose(r: Registry, sessionId: string, device: ConnectedDevice)
    ensures var r' := Teardown(Disconnect(Connect(r, sessionId, device), sessionId), sessionId);
      r'.events == r.events + [DeviceConnected(device), DeviceDisconnected(device)]
    ensures var r' := Teardown(Disconnect(Connect(r, sessionId, device), sessionId), sessionId);
      sessionId !in r.devices && device !in r.state.connectedDevices ==>
        r'.devices == r.devices && r'.state == r.state
        && r'.sessions == r.sessions - {sessionId} && r'.running == r.running
  {
    if sessionId !in r.devices && device !in r.state.connectedDevices {
      ConnectThenDisconnect(r, sessionId, device);
    }
  }

  /** In a registry in step, the device of a session without one is not
      listed, so ConnectDisconnectClose gives the registry back. */
  lemma FreshUnlisted(r: Registry, sessionId: string, device: ConnectedDevice)
    requires Keyed(r.devices) && Consistent(r)
    requires sessionId !in r.devices && device.id == sessionId
    ensures device !in r.state.connectedDevices
  {
  }

  lemma ConnectThenDisconnect(r: Registry, sessionId: string, device: ConnectedDevice)
    requires sessionId !in r.devices && device !in r.state.connectedDevices
    ensures Disconnect(Connect(r, sessionId, device), sessionId) == r.(events := r.events + [DeviceConnected(device), DeviceDisconnected(device)])
  {
    var c := Connect(r, sessionId, device);
    assert c.devices - {sessionId} == r.devices;
    RemoveFirstAppended(r.state.connectedDevices, device);
    assert c.state.(connectedDevices := r.state.connectedDevices) == r.state;
  }

  /** However a session's device goes (by request or by the server) and
      the connection then ends, at most one disconnect event is emitted for
      it. The route through disconnecting all devices is
      DisconnectAllThenClose. This holds with each step atomic, as the
      registry functions are. In the source, `disconnectDevice` and
      `disconnectAllDevices` emit their event after suspending in `close`,
      whatever their own `remove` returns, so a connection's teardown that
      runs during that suspension can announce the same device a second
      time. */
  lemma {:induction false} DisconnectedAtMostOnce(r: Registry, sessionId: string)
    ensures DisconnectCount(Teardown(Disconnect(r, sessionId), sessionId).events) <= DisconnectCount(r.events) + 1
    ensures DisconnectCount(Teardown(DisconnectDevice(r, sessionId), sessionId).events) <= DisconnectCount(r.events) + 1
  {
    if sessionId in r.devices {
      var e := [DeviceDisconnected(r.devices[sessionId])];
      DisconnectCountAppend(r.events, e);
      assert DisconnectCount(e) == 1 by {
        assert e[..0] == [];
      }
    }
  }

  // ---------------------------------------------------------------------
  // Start, stop, polling and broadcast.

  /** `start`: a running server is left alone; otherwise it listens on the
      bridge port and announces it, or reports why it could not start (the
      outcome is the local address, or the exception raised). */
  function Start(r: Registry, bridgePort: Int32, outcome: Result<string>): (r': Registry)
    ensures r.running ==> r' == r
    ensures !r.running && outcome.Success? ==>
      r'.running && r'.state.isRunning && r'.state.host == outcome.value && r'.state.port == bridgePort
      && r'.events == r.events + [Started(outcome.value, bridgePort)]
    ensures !r.running && outcome.Success? ==>
      r'.sessions == r.sessions && r'.devices == r.devices
      && r'.state == r.state.(isRunning := true, host := outcome.value, port := bridgePort)
    ensures !r.running && outcome.Failure? ==>
      r' == r.(events := r.events + [Error("Failed to start server: " + outcome.message.GetOr("null"))])
  {
    if r.running then r
    else
      match outcome
      case Success(localIp) =>
        r.(running := true,
           state := r.state.(isRunning := true, host := localIp, port := bridgePort),
           events := r.events + [Started(localIp, bridgePort)])
      case Failure(msg) =>
        r.(events := r.events + [Error("Failed to start server: " + msg.GetOr("null"))])
  }

  /** `stop`: always stops and announces it. */
  function Stop(r: Registry): (r': Registry)
    ensures !r'.running && r'.events == r.events + [Stopped]
    ensures r'.state == r.state.(isRunning := false)
    ensures r'.sessions == r.sessions && r'.devices == r.devices
  {
    r.(running := false, state := r.state.(isRunning := false), events := r.events + [Stopped])
  }

  /** `broadcastEvent`: the event's JSON is sent once on every open session. */
  function Broadcast(r: Registry, event: BridgeEvent): (r': Registry)
    ensures r'.sessions.Keys == r.sessions.Keys
    ensures forall s :: s in r.sessions ==> r'.sessions[s] == r.sessions[s] + [EncodeEvent(event)]
    ensures r'.devices == r.devices && r'.state == r.state && r'.events == r.events
  {
    r.(sessions := map s | s in r.sessions :: r.sessions[s] + [EncodeEvent(event)])
  }

  /** The event sent when the node's reachability changes. */
  function StatusChanged(connected: bool): BridgeEvent {
    BridgeEvent(NodeStatusChanged.Name(), JObj(map["connected" := Bool(connected)]))
  }

  /** One tick of the status poller, given whether the node answered and,
      when it did, the status it gave (None when that call failed). */
  function Poll(r: Registry, connected: bool, status: Option<NodeStatus>): (r': Registry)
    ensures r'.state.nodeConnected == connected
    ensures r'.running == r.running && r'.devices == r.devices && r'.events == r.events
    ensures r'.state.connectedDevices == r.state.connectedDevices
  {
    var flipped := Reading(r, connected);
    if connected && status.Some? then flipped.(state := flipped.state.(nodeStatus := status)) else flipped
  }

  /** The reading recorded, and broadcast when it differs from the last one. */
  function Reading(r: Registry, connected: bool): (r': Registry)
    ensures r'.state.nodeConnected == connected && r'.state.nodeStatus == r.state.nodeStatus
    ensures connected == r.state.nodeConnected ==> r' == r
    ensures r'.sessions.Keys == r.sessions.Keys && r'.devices == r.devices && r'.events == r.events
  {
    if connected != r.state.nodeConnected
    then Broadcast(r.(state := r.state.(nodeConnected := connected)), StatusChanged(connected))
    else r
  }

  /** A tick records the reading; it broadcasts exactly when the reading
      differs from the recorded one, and replaces the node status only when
      connected and a status came back. */
  lemma PollEdgeTriggered(r: Registry, connected: bool, status: Option<NodeStatus>)
    ensures var r' := Poll(r, connected, status);
      && r'.state.nodeConnected == connected
      && r'.sessions.Keys == r.sessions.Keys
      && (connected == r.state.nodeConnected ==> r'.sessions == r.sessions)
      && (connected != r.state.nodeConnected ==>
            forall s :: s in r.sessions ==> r'.sessions[s] == r.sessions[s] + [EncodeEvent(StatusChanged(connected))])
      && r'.state.nodeStatus == (if connected && status.Some? then status else r.state.nodeStatus)
      && r'.devices == r.devices && r'.events == r.events
  {
  }

  /** Two ticks with the same reading broadcast at most once. */
  lemma PollRepeatSilent(r: Registry, connected: bool, s1: Option<NodeStatus>, s2: Option<NodeStatus>)
    ensures var r1 := Poll(r, connected, s1); Poll(r1, connected, s2).sessions == r1.sessions
  {
  }

  /** `updateNodeConfig`: only the published node address changes. */
  function UpdateNodeConfig(r: Registry, nodeIp: string, rpcPort: Int32): (r': Registry)
    ensures r'.state == r.state.(nodeIp := nodeIp, nodePort := rpcPort)
    ensures r'.sessions == r.sessions && r'.devices == r.devices && r'.events == r.events && r'.running == r.running
  {
    r.(state := r.state.(nodeIp := nodeIp, nodePort := rpcPort))
  }

  /** `get_staking_info` on a session with a device: the device gets the
      address and the staking info, and the list is rebuilt from the map's
      values, in the map's iteration order `order`. */
  function RecordStaking(r: Registry, sessionId: string, address: string, info: StakingInfo, order: seq<string>): (r': Registry)
    requires sessionId in r.devices
    requires IsListing(order, r.devices.Keys)
    ensures r'.devices.Keys == r.devices.Keys
    ensures r'.devices[sessionId] == r.devices[sessionId].(stakingInfo := Some(info), walletAddress := Some(address))
    ensures forall id :: id in r.devices && id != sessionId ==> r'.devices[id] == r.devices[id]
    ensures r'.sessions == r.sessions && r'.events == r.events && r'.running == r.running
  {
    var devices := r.devices[sessionId := r.devices[sessionId].(stakingInfo := Some(info), walletAddress := Some(address))];
    r.(devices := devices,
       state := r.state.(connectedDevices := seq(|order|, i requires 0 <= i < |order| => devices[order[i]])))
  }

  /** Rebuilding the list from the map puts the two back in step, whatever
      state the list was in. */
  lemma RecordStakingConsistent(r: Registry, sessionId: string, address: string, info: StakingInfo, order: seq<string>)
    requires sessionId in r.devices && IsListing(order, r.devices.Keys)
    requires Keyed(r.devices)
    ensures Keyed(RecordStaking(r, sessionId, address, info, order).devices)
    ensures Consistent(RecordStaking(r, sessionId, address, info, order))
  {
    var r' := RecordStaking(r, sessionId, address, info, order);
    var list := r'.state.connectedDevices;
    forall i, j | 0 <= i < j < |list|
      ensures list[i] != list[j]
    {
      assert list[i].id == order[i] && list[j].id == order[j];
    }
    forall d
      ensures d in list <==> d in r'.devices.Values
    {
      if d in r'.devices.Values {
        var k :| k in r'.devices && r'.devices[k] == d;
        var i :| 0 <= i < |order| && order[i] == k;
        assert list[i] == d;
      }
    }
  }
}
