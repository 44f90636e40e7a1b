/**
  The broker client the device library drives (PubSubClient over the Wi-Fi link), as an abstract
  object: whether the session is up, the scripted outcomes of the coming connect attempts, the
  topics whose subscribe the client fails to send (too long for its packet buffer, or a failed
  write; the client never waits for the broker's acknowledgement), and a log of every connect
  attempt, and of every subscribe, publish and `loop()` made while connected.
*/
module Mqtt {

  datatype Request =
    | Connect(clientId: string)
    | Subscribe(topic: string)
    | Publish(topic: string, payload: string)
    | Loop

  class Client {
    var connected: bool
    var outcomes: seq<bool>
    var unsendable: set<string>
    var requests: seq<Request>

    constructor (outcomes: seq<bool>, unsendable: set<string>)
      ensures !connected && this.outcomes == outcomes && this.unsendable == unsendable && requests == []
    {
      connected := false;
      this.outcomes := outcomes;
      this.unsendable := unsendable;
      requests := [];
    }

    /** One handshake with `clientId`; its outcome is the next scripted one. */
    method Connect(clientId: string) returns (ok: bool)
      requires outcomes != []
      modifies this
      ensures ok == old(outcomes)[0] && connected == ok
      ensures outcomes == old(outcomes)[1..] && unsendable == old(unsendable)
      ensures requests == old(requests) + [Request.Connect(clientId)]
    {
      ok := outcomes[0];
      connected := ok;
      outcomes := outcomes[1..];
      requests := requests + [Request.Connect(clientId)];
    }

    /** A subscribe is attempted only while connected; it fails for a topic the client cannot send. */
    method Subscribe(topic: string) returns (ok: bool)
      modifies this
      ensures ok == (old(connected) && topic !in unsendable)
      ensures requests == old(requests) + (if old(connected) then [Request.Subscribe(topic)] else [])
      ensures connected == old(connected) && outcomes == old(outcomes) && unsendable == old(unsendable)
    {
      ok := connected && topic !in unsendable;
      if connected {
        requests := requests + [Request.Subscribe(topic)];
      }
    }

    /**
      A publish is attempted only while connected. PubSubClient's success flag, which is also false
      for a packet too large for its buffer, is not returned: no caller reads it.
    */
    method Publish(topic: string, payload: string)
      modifies this
      ensures requests == old(requests) + (if old(connected) then [Request.Publish(topic, payload)] else [])
      ensures connected == old(connected) && outcomes == old(outcomes) && unsendable == old(unsendable)
    {
      if connected {
        requests := requests + [Request.Publish(topic, payload)];
      }
    }

    /** `loop()`: keepalive and inbound processing, which only happen while connected. */
    method Loop()
      modifies this
      ensures requests == old(requests) + (if old(connected) then [Request.Loop] else [])
      ensures connected == old(connected) && outcomes == old(outcomes) && unsendable == old(unsendable)
    {
      if connected {
        requests := requests + [Request.Loop];
      }
    }

    /** The link or the broker session goes away (network drop, broker restart, keepalive timeout). */
    method Drop()
      modifies this
      ensures !connected
      ensures requests == old(requests) && outcomes == old(outcomes) && unsendable == old(unsendable)
    {
      connected := false;
    }
  }
}
