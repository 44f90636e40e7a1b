/**
  The device session of the SmartDevice library: the topic registry, the reconnect loop that
  replays it, publishing, and the single message-callback slot fed by `mqttCallback`.
*/
module DeviceSession {
  import opened Wrappers
  import opened Arduino
  import Mqtt

  /** A message handler `void (*)(String topic, String payload)`, known by name. */
  datatype Handler = Handler(name: string)

  /** One invocation of the registered handler. */
  datatype Delivery = Delivery(handler: Handler, topic: string, payload: string)

  /** The global `global_message_callback` slot, and the calls made through it. */
  class CallbackSlot {
    var handler: Option<Handler>
    var deliveries: seq<Delivery>

    constructor ()
      ensures handler == None && deliveries == []
    {
      handler := None;
      deliveries := [];
    }
  }

  /** `(char)payload[i]`: the byte becomes the character with the same code. */
  function ByteToChar(b: byte): char {
    b as char
  }

  /** The loop of `mqttCallback` that appends the first `length` payload bytes to the message. */
  method AssembleMessage(payload: seq<byte>, length: nat) returns (message: string)
    requires length <= |payload|
    ensures |message| == length
    ensures forall i :: 0 <= i < length ==> message[i] == ByteToChar(payload[i])
  {
    message := "";
    var i := 0;
    while i < length
      invariant 0 <= i <= length
      invariant |message| == i
      invariant forall k :: 0 <= k < i ==> message[k] == ByteToChar(payload[k])
    {
      message := message + [ByteToChar(payload[i])];
      i := i + 1;
    }
  }

  /**
    `mqttCallback`: the payload is reassembled in order and handed, with the topic, to the handler
    in the slot, once; with no handler registered the message is dropped.
  */
  method MqttCallback(slot: CallbackSlot, topic: string, payload: seq<byte>, length: nat)
    requires length <= |payload|
    modifies slot
    ensures slot.handler == old(slot.handler)
    ensures old(slot.handler).None? ==> slot.deliveries == old(slot.deliveries)
    ensures old(slot.handler).Some? ==>
              exists message: string ::
                && |message| == length
                && (forall i :: 0 <= i < length ==> message[i] == ByteToChar(payload[i]))
                && slot.deliveries == old(slot.deliveries) + [Delivery(old(slot.handler).value, topic, message)]
  {
    var message := AssembleMessage(payload, length);
    if slot.handler != None {
      slot.deliveries := slot.deliveries + [Delivery(slot.handler.value, topic, message)];
    }
  }

  predicate NoDuplicates(s: seq<string>) {
    forall i, j :: 0 <= i < j < |s| ==> s[i] != s[j]
  }

  /** The registry after `subscribeTo(t)`: `t` appended unless an equal string is already stored. */
  function AddTopic(topics: seq<string>, t: string): (r: seq<string>)
    ensures t in r
    ensures NoDuplicates(topics) ==> NoDuplicates(r)
    ensures |topics| <= |r| && r[..|topics|] == topics
    ensures t in topics ==> r == topics
    ensures t !in topics ==> r == topics + [t]
    ensures forall u :: u in r <==> u in topics || u == t
  {
    if t in topics then topics else topics + [t]
  }

  /** Adding a topic a second time changes nothing. */
  lemma AddTopicIdempotent(topics: seq<string>, t: string)
    ensures AddTopic(AddTopic(topics, t), t) == AddTopic(topics, t)
  {
  }

  /** The requests `_resubscribe` puts on the wire: one subscribe per stored topic, in order. */
  function Resubscriptions(topics: seq<string>): (r: seq<Mqtt.Request>)
    ensures |r| == |topics|
    ensures forall i :: 0 <= i < |topics| ==> r[i] == Mqtt.Subscribe(topics[i])
  {
    if topics == [] then [] else [Mqtt.Subscribe(topics[0])] + Resubscriptions(topics[1..])
  }

  /** Resubscribing to a longer registry adds the subscribe for the new last topic at the end. */
  lemma ResubscriptionsSnoc(topics: seq<string>, t: string)
    ensures Resubscriptions(topics + [t]) == Resubscriptions(topics) + [Mqtt.Subscribe(t)]
  {
    var a := Resubscriptions(topics + [t]);
    var b := Resubscriptions(topics) + [Mqtt.Subscribe(t)];
    assert |a| == |b|;
    forall i | 0 <= i < |a| ensures a[i] == b[i] {
      if i < |topics| {
        assert (topics + [t])[i] == topics[i];
      }
    }
  }

  /** The index of the first successful connect attempt of a script. */
  function FirstSuccess(outcomes: seq<bool>): (k: nat)
    requires true in outcomes
    ensures k < |outcomes| && outcomes[k]
    ensures forall j :: 0 <= j < k ==> !outcomes[j]
  {
    if outcomes[0] then 0 else 1 + FirstSuccess(outcomes[1..])
  }

  /**
    The requests `_reconnect` issues from a disconnected state: a connect attempt per scripted
    outcome until one succeeds, then the replay of `topics`.
  */
  function ReconnectRequests(outcomes: seq<bool>, clientId: string, topics: seq<string>): seq<Mqtt.Request>
    requires true in outcomes
    decreases |outcomes|
  {
    if outcomes[0] then [Mqtt.Connect(clientId)] + Resubscriptions(topics)
    else [Mqtt.Connect(clientId)] + ReconnectRequests(outcomes[1..], clientId, topics)
  }

  /** The script left once `_reconnect` has returned. */
  function RemainingOutcomes(outcomes: seq<bool>): seq<bool>
    requires true in outcomes
    decreases |outcomes|
  {
    if outcomes[0] then outcomes[1..] else RemainingOutcomes(outcomes[1..])
  }

  /** `n` connect attempts with the same client identifier. */
  function ConnectAttempts(n: nat, clientId: string): (r: seq<Mqtt.Request>)
    ensures |r| == n && forall i :: 0 <= i < n ==> r[i] == Mqtt.Connect(clientId)
  {
    if n == 0 then [] else [Mqtt.Connect(clientId)] + ConnectAttempts(n - 1, clientId)
  }

  /**
    Reconnecting makes one attempt per failure before the first success plus the successful one,
    every attempt with the same identifier, then replays the registry exactly once.
  */
  lemma {:induction false} ReconnectShape(outcomes: seq<bool>, clientId: string, topics: seq<string>)
    requires true in outcomes
    ensures ReconnectRequests(outcomes, clientId, topics)
            == ConnectAttempts(FirstSuccess(outcomes) + 1, clientId) + Resubscriptions(topics)
    decreases |outcomes|
  {
    if outcomes[0] {
      assert FirstSuccess(outcomes) == 0;
      assert ConnectAttempts(1, clientId) == [Mqtt.Connect(clientId)];
    } else {
      FailedAttempt(outcomes, clientId, topics);
      var rest := outcomes[1..];
      ReconnectShape(rest, clientId, topics);
      var n := FirstSuccess(rest) + 1;
      assert FirstSuccess(outcomes) == n;
      assert ConnectAttempts(n + 1, clientId) == [Mqtt.Connect(clientId)] + ConnectAttempts(n, clientId);
    }
  }

  /** Reconnecting consumes exactly the outcomes up to and including the first success. */
  lemma {:induction false} RemainingShape(outcomes: seq<bool>)
    requires true in outcomes
    ensures RemainingOutcomes(outcomes) == outcomes[FirstSuccess(outcomes) + 1..]
    decreases |outcomes|
  {
    if !outcomes[0] {
      var rest := outcomes[1..];
      assert true in rest by {
        var k :| 0 <= k < |outcomes| && outcomes[k];
        assert rest[k - 1];
      }
      RemainingShape(rest);
      assert rest[FirstSuccess(rest) + 1..] == outcomes[FirstSuccess(rest) + 2..];
    }
  }

  /** A failed attempt contributes one connect request and leaves a success still to come. */
  lemma FailedAttempt(outcomes: seq<bool>, clientId: string, topics: seq<string>)
    requires true in outcomes && !outcomes[0]
    ensures true in outcomes[1..]
    ensures ReconnectRequests(outcomes, clientId, topics)
            == [Mqtt.Connect(clientId)] + ReconnectRequests(outcomes[1..], clientId, topics)
    ensures RemainingOutcomes(outcomes) == RemainingOutcomes(outcomes[1..])
  {
    var k :| 0 <= k < |outcomes| && outcomes[k];
    assert outcomes[1..][k - 1];
  }

  /**
    How far `_reconnect` has come, starting from requests `r0` and script `o0`: while still down,
    what is left to send is the reconnect trace of the remaining script; once up, the whole trace
    has been sent.
  */
  ghost predicate ReconnectProgress(r0: seq<Mqtt.Request>, o0: seq<bool>, r: seq<Mqtt.Request>, o: seq<bool>,
                                    up: bool, clientId: string, topics: seq<string>)
  {
    && true in o0
    && (up ==> r == r0 + ReconnectRequests(o0, clientId, topics) && o == RemainingOutcomes(o0))
    && (!up ==> && true in o
                && r0 + ReconnectRequests(o0, clientId, topics) == r + ReconnectRequests(o, clientId, topics)
                && RemainingOutcomes(o0) == RemainingOutcomes(o))
  }

  /** A successful attempt followed by the replay completes the reconnect trace. */
  lemma SuccessfulAttempt(r0: seq<Mqtt.Request>, o0: seq<bool>, r: seq<Mqtt.Request>, o: seq<bool>,
                          clientId: string, topics: seq<string>)
    requires ReconnectProgress(r0, o0, r, o, false, clientId, topics) && o[0]
    ensures ReconnectProgress(r0, o0, r + [Mqtt.Connect(clientId)] + Resubscriptions(topics), o[1..], true,
                              clientId, topics)
  {
    assert ReconnectRequests(o, clientId, topics) == [Mqtt.Connect(clientId)] + Resubscriptions(topics);
    assert RemainingOutcomes(o) == o[1..];
    assert r + [Mqtt.Connect(clientId)] + Resubscriptions(topics) == r + ReconnectRequests(o, clientId, topics);
  }

  /** A failed attempt sends one connect and leaves the rest of the trace to the remaining script. */
  lemma FailedAttemptProgress(r0: seq<Mqtt.Request>, o0: seq<bool>, r: seq<Mqtt.Request>, o: seq<bool>,
                              clientId: string, topics: seq<string>)
    requires ReconnectProgress(r0, o0, r, o, false, clientId, topics) && !o[0]
    ensures ReconnectProgress(r0, o0, r + [Mqtt.Connect(clientId)], o[1..], false, clientId, topics)
  {
    FailedAttempt(o, clientId, topics);
    assert r + [Mqtt.Connect(clientId)] + ReconnectRequests(o[1..], clientId, topics) ==
           r + ([Mqtt.Connect(clientId)] + ReconnectRequests(o[1..], clientId, topics));
  }

  /** A `SmartDevice`: its client identifier and its ordered, duplicate-free registry of topics. */
  class SmartDevice {
    var deviceName: string
    var topics: seq<string>
    const mqtt: Mqtt.Client
    const slot: CallbackSlot

    ghost predicate Valid()
      reads this
    {
      NoDuplicates(topics)
    }

    constructor (mqtt: Mqtt.Client, slot: CallbackSlot)
      ensures Valid() && topics == [] && deviceName == ""
      ensures this.mqtt == mqtt && this.slot == slot
    {
      deviceName := "";
      topics := [];
      this.mqtt := mqtt;
      this.slot := slot;
    }

    /** `begin`: records the identifier used for every broker handshake. */
    method Begin(name: string)
      modifies this`deviceName
      ensures deviceName == name
    {
      deviceName := name;
    }

    /**
      `subscribeTo`: the topic enters the registry unless already there, and a subscribe
      request goes out if and only if the session is up, even for a topic already stored.
    */
    method SubscribeTo(t: string)
      requires Valid()
      modifies this`topics, mqtt
      ensures Valid()
      ensures topics == AddTopic(old(topics), t)
      ensures mqtt.requests == old(mqtt.requests) + (if old(mqtt.connected) then [Mqtt.Subscribe(t)] else [])
      ensures mqtt.connected == old(mqtt.connected) && mqtt.outcomes == old(mqtt.outcomes)
      ensures mqtt.unsendable == old(mqtt.unsendable)
    {
      var found := false;
      var i := 0;
      while i < |topics|
        invariant 0 <= i <= |topics|
        invariant !found && t !in topics[..i]
      {
        if topics[i] == t {
          found := true;
          break;
        }
        i := i + 1;
      }
      assert found <==> t in topics by {
        if !found {
          assert topics[..i] == topics;
        }
      }
      if !found {
        topics := topics + [t];
      }
      if mqtt.connected {
        var accepted := mqtt.Subscribe(t);
      }
    }

    /**
      `_resubscribe`: one subscribe request per stored topic, in registry order, carrying on past
      topics the client fails to send; an empty registry sends nothing.
    */
    method Resubscribe()
      modifies mqtt
      ensures mqtt.requests == old(mqtt.requests) + (if old(mqtt.connected) then Resubscriptions(topics) else [])
      ensures mqtt.connected == old(mqtt.connected) && mqtt.outcomes == old(mqtt.outcomes)
      ensures mqtt.unsendable == old(mqtt.unsendable)
    {
      if |topics| == 0 {
        return;
      }
      var i := 0;
      while i < |topics|
        invariant 0 <= i <= |topics|
        invariant mqtt.connected == old(mqtt.connected) && mqtt.outcomes == old(mqtt.outcomes)
        invariant mqtt.unsendable == old(mqtt.unsendable)
        invariant mqtt.requests == old(mqtt.requests) + (if mqtt.connected then Resubscriptions(topics[..i]) else [])
      {
        var accepted := mqtt.Subscribe(topics[i]);
        ResubscriptionsSnoc(topics[..i], topics[i]);
        assert topics[..i + 1] == topics[..i] + [topics[i]];
        i := i + 1;
      }
      assert topics[..i] == topics;
    }

    /**
      `_reconnect`: returns only once the session is up. From a disconnected state it makes
      connect attempts with `deviceName` until the script yields a success and replays the
      registry after that success; when already connected it does nothing.
    */
    method Reconnect()
      requires mqtt.connected || true in mqtt.outcomes
      modifies mqtt
      ensures mqtt.connected
      ensures old(mqtt.connected) ==> mqtt.requests == old(mqtt.requests) && mqtt.outcomes == old(mqtt.outcomes)
      ensures !old(mqtt.connected) ==>
                && mqtt.requests == old(mqtt.requests) + ReconnectRequests(old(mqtt.outcomes), deviceName, topics)
                && mqtt.outcomes == RemainingOutcomes(old(mqtt.outcomes))
      ensures mqtt.unsendable == old(mqtt.unsendable)
    {
      if mqtt.connected {
        return;
      }
      ghost var requests0, outcomes0 := mqtt.requests, mqtt.outcomes;
      while !mqtt.connected
        invariant mqtt.unsendable == old(mqtt.unsendable)
        invariant ReconnectProgress(requests0, outcomes0, mqtt.requests, mqtt.outcomes, mqtt.connected, deviceName, topics)
        decreases |mqtt.outcomes|
      {
        ghost var script, sent := mqtt.outcomes, mqtt.requests;
        var ok := mqtt.Connect(deviceName);
        if ok {
          Resubscribe();
          SuccessfulAttempt(requests0, outcomes0, sent, script, deviceName, topics);
        } else {
          FailedAttemptProgress(requests0, outcomes0, sent, script, deviceName, topics);
        }
      }
    }

    /**
      `update`: reconnects (with replay) first when the session is down, then runs the client's
      `loop()` exactly once.
    */
    method Update()
      requires mqtt.connected || true in mqtt.outcomes
      modifies mqtt
      ensures mqtt.connected
      ensures mqtt.requests == old(mqtt.requests)
                + (if old(mqtt.connected) then [] else ReconnectRequests(old(mqtt.outcomes), deviceName, topics))
                + [Mqtt.Loop]
      ensures mqtt.outcomes == if old(mqtt.connected) then old(mqtt.outcomes) else RemainingOutcomes(old(mqtt.outcomes))
      ensures mqtt.unsendable == old(mqtt.unsendable)
    {
      if !mqtt.connected {
        Reconnect();
      }
      mqtt.Loop();
    }

    /** `publishTo`: sent if and only if the session is up; otherwise dropped, never queued. */
    method PublishTo(topic: string, payload: string)
      modifies mqtt
      ensures mqtt.requests == old(mqtt.requests) + (if old(mqtt.connected) then [Mqtt.Publish(topic, payload)] else [])
      ensures mqtt.connected == old(mqtt.connected) && mqtt.outcomes == old(mqtt.outcomes)
      ensures mqtt.unsendable == old(mqtt.unsendable)
    {
      if mqtt.connected {
        mqtt.Publish(topic, payload);
      }
    }

    /** `onMessage`: the new handler replaces whatever was registered; the last one wins. */
    method OnMessage(callback: Option<Handler>)
      modifies slot
      ensures slot.handler == callback && slot.deliveries == old(slot.deliveries)
    {
      slot.handler := callback;
    }

    /** `isConnected`: the client's own flag. */
    method IsConnected() returns (up: bool)
      ensures up == mqtt.connected
    {
      up := mqtt.connected;
    }
  }

  /**
    Topics registered while disconnected are stored without traffic, a repeated one only once, in
    registration order.
  */
  method OfflineRegistration() returns (device: SmartDevice)
    ensures fresh(device) && fresh(device.mqtt)
    ensures device.Valid() && device.deviceName == "lamp" && device.topics == ["light", "fan"]
    ensures !device.mqtt.connected && device.mqtt.requests == [] && device.mqtt.outcomes == [false, true, true]
  {
    var mqtt := new Mqtt.Client([false, true, true], {"fan"});
    var slot := new CallbackSlot();
    device := new SmartDevice(mqtt, slot);
    device.Begin("lamp");
    device.SubscribeTo("light");
    assert device.topics == ["light"];
    device.SubscribeTo("fan");
    assert device.topics == ["light", "fan"];
    device.SubscribeTo("light");
  }

  /**
    The first `update` after offline registration connects (here after one failed attempt) and
    replays the registry once, in registration order, unsendable topic included.
  */
  method ReplayScenario() {
    var device := OfflineRegistration();
    var mqtt := device.mqtt;
    var topics := device.topics;
    device.Update();
    assert [false, true, true][1..] == [true, true];
    assert Resubscriptions(topics) == [Mqtt.Subscribe("light"), Mqtt.Subscribe("fan")];
    assert ReconnectRequests([true, true], "lamp", topics) == [Mqtt.Connect("lamp")] + Resubscriptions(topics);
    assert ReconnectRequests([false, true, true], "lamp", topics) ==
           [Mqtt.Connect("lamp")] + ReconnectRequests([true, true], "lamp", topics);
    assert mqtt.requests == [Mqtt.Connect("lamp"), Mqtt.Connect("lamp"),
                             Mqtt.Subscribe("light"), Mqtt.Subscribe("fan"), Mqtt.Loop];
  }

  /**
    After a drop, a publish is discarded rather than queued, and the next `update` reconnects and
    replays the registry again.
  */
  method DropScenario(device: SmartDevice)
    requires device.Valid() && device.topics == ["light"] && device.deviceName == "lamp"
    requires device.mqtt.outcomes == [true]
    modifies device.mqtt
  {
    var mqtt := device.mqtt;
    mqtt.Drop();
    var sent := mqtt.requests;
    device.PublishTo("light/state", "true");
    assert mqtt.requests == sent;
    device.Update();
    assert ReconnectRequests([true], "lamp", ["light"]) == [Mqtt.Connect("lamp"), Mqtt.Subscribe("light")];
    assert mqtt.requests == sent + [Mqtt.Connect("lamp"), Mqtt.Subscribe("light"), Mqtt.Loop];
  }
}
