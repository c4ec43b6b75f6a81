/** The part of the foreign `pubsus` publish/subscribe mixin that a process
    node relies on: registering a subscriber under a topic, asking whether a
    pair is registered, and publishing a value to every registered subscriber
    of a topic.

    Callbacks are opaque subscriber identities; calling one is recorded as a
    `Call` in a trace, so what a subscriber has received is a view of that
    trace. */
module PubSub {
  import opened Exceptions

  newtype byte = b: int | 0 <= b < 0x100

  /** The two fixed topics of a process node. */
  datatype Topic = StringDataStream | BytesDataStream

  /** The value handed to a callback: decoded text or raw bytes. */
  datatype Payload = StringPayload(text: string) | BytesPayload(bytes: seq<byte>)

  /** A callback identity: an observer's callback, or a child node's `write`. */
  datatype Subscriber = Callback(id: nat) | ChildWriter(child: string)

  /** One invocation of a subscriber's callback with a payload. */
  datatype Call = Call(topic: Topic, subscriber: Subscriber, payload: Payload)

  /** The subscribers of each topic, in registration order. */
  datatype Registry = Registry(stringSubscribers: seq<Subscriber>, bytesSubscribers: seq<Subscriber>)

  const EmptyRegistry: Registry := Registry([], [])

  function Subscribers(reg: Registry, t: Topic): seq<Subscriber> {
    match t
    case StringDataStream => reg.stringSubscribers
    case BytesDataStream => reg.bytesSubscribers
  }

  predicate IsSubscribed(reg: Registry, t: Topic, s: Subscriber) {
    s in Subscribers(reg, t)
  }

  predicate Distinct(subs: seq<Subscriber>) {
    forall i, j :: 0 <= i < j < |subs| ==> subs[i] != subs[j]
  }

  /** No (topic, subscriber) pair is registered twice. */
  predicate NoDuplicates(reg: Registry) {
    Distinct(reg.stringSubscribers) && Distinct(reg.bytesSubscribers)
  }

  /** Registers `s` under `t`; a pair that is already registered is refused
      and the registry is left as it was. */
  function Subscribe(reg: Registry, t: Topic, s: Subscriber): (r: Result<Registry>)
    ensures r.Err? <==> IsSubscribed(reg, t, s)
    ensures r.Err? ==> r.error == DuplicateSubscriberError
    ensures r.Ok? ==> Subscribers(r.value, t) == Subscribers(reg, t) + [s]
    ensures r.Ok? ==> forall u: Topic :: u != t ==> Subscribers(r.value, u) == Subscribers(reg, u)
    ensures r.Ok? && NoDuplicates(reg) ==> NoDuplicates(r.value)
  {
    if IsSubscribed(reg, t, s) then Err(DuplicateSubscriberError)
    else match t
      case StringDataStream => Ok(reg.(stringSubscribers := reg.stringSubscribers + [s]))
      case BytesDataStream => Ok(reg.(bytesSubscribers := reg.bytesSubscribers + [s]))
  }

  /** A registered pair stays registered and cannot be registered again. */
  lemma SecondSubscribeRejected(reg: Registry, t: Topic, s: Subscriber, u: Topic, v: Subscriber)
    requires Subscribe(reg, t, s).Ok?
    ensures IsSubscribed(Subscribe(reg, t, s).value, t, s)
    ensures IsSubscribed(reg, u, v) ==> IsSubscribed(Subscribe(reg, t, s).value, u, v)
    ensures Subscribe(Subscribe(reg, t, s).value, t, s) == Err(DuplicateSubscriberError)
  {
    var r := Subscribe(reg, t, s).value;
    assert Subscribers(r, t)[|Subscribers(r, t)| - 1] == s;
    if IsSubscribed(reg, u, v) && u == t {
      var k :| 0 <= k < |Subscribers(reg, t)| && Subscribers(reg, t)[k] == v;
      assert Subscribers(r, t)[k] == v;
    }
  }

  /** A successful registration adds exactly the one pair. */
  lemma SubscribeAddsExactlyOne(reg: Registry, t: Topic, s: Subscriber, u: Topic, v: Subscriber)
    requires Subscribe(reg, t, s).Ok?
    ensures IsSubscribed(Subscribe(reg, t, s).value, u, v) <==> IsSubscribed(reg, u, v) || (u == t && v == s)
  {
    var r := Subscribe(reg, t, s).value;
    if u == t {
      assert Subscribers(r, t) == Subscribers(reg, t) + [s];
    }
  }

  /** The calls made by invoking each of `subs` with `p`, in order. */
  function Deliver(subs: seq<Subscriber>, t: Topic, p: Payload): (calls: seq<Call>)
    ensures |calls| == |subs|
    ensures forall i :: 0 <= i < |calls| ==> calls[i] == Call(t, subs[i], p)
  {
    if subs == [] then [] else [Call(t, subs[0], p)] + Deliver(subs[1..], t, p)
  }

  /** `publish(topic, value)`: every subscriber of the topic, in registration
      order, is called once with the value. */
  function Publish(reg: Registry, t: Topic, p: Payload): (calls: seq<Call>)
    ensures |calls| == |Subscribers(reg, t)|
    ensures forall i :: 0 <= i < |calls| ==> calls[i].subscriber == Subscribers(reg, t)[i]
    ensures forall c :: c in calls ==> c.topic == t && c.payload == p
  {
    Deliver(Subscribers(reg, t), t, p)
  }

  /** What subscriber `s` received on topic `t` in a trace of calls, in order. */
  function Received(calls: seq<Call>, t: Topic, s: Subscriber): seq<Payload> {
    if calls == [] then []
    else (if calls[0].topic == t && calls[0].subscriber == s then [calls[0].payload] else [])
         + Received(calls[1..], t, s)
  }

  lemma {:induction false} ReceivedAppend(a: seq<Call>, b: seq<Call>, t: Topic, s: Subscriber)
    ensures Received(a + b, t, s) == Received(a, t, s) + Received(b, t, s)
  {
    if a != [] {
      assert (a + b)[0] == a[0];
      assert (a + b)[1..] == a[1..] + b;
      ReceivedAppend(a[1..], b, t, s);
    } else {
      assert a + b == b;
    }
  }

  lemma {:induction false} DeliverReachesOnce(subs: seq<Subscriber>, u: Topic, p: Payload, t: Topic, s: Subscriber)
    requires Distinct(subs)
    ensures Received(Deliver(subs, u, p), t, s) == if t == u && s in subs then [p] else []
  {
    if subs != [] {
      var calls := Deliver(subs, u, p);
      assert calls[1..] == Deliver(subs[1..], u, p);
      assert Distinct(subs[1..]) by {
        forall i, j | 0 <= i < j < |subs[1..]| ensures subs[1..][i] != subs[1..][j] {
          assert subs[1..][i] == subs[i + 1] && subs[1..][j] == subs[j + 1];
        }
      }
      DeliverReachesOnce(subs[1..], u, p, t, s);
      if subs[0] == s {
        assert s !in subs[1..] by {
          forall k | 0 <= k < |subs[1..]| ensures subs[1..][k] != s {
            assert subs[1..][k] == subs[k + 1];
          }
        }
      } else {
        assert s in subs <==> s in subs[1..] by {
          assert subs == [subs[0]] + subs[1..];
        }
      }
    }
  }

  /** Publishing reaches each registered subscriber of the topic exactly once
      and nobody else. */
  lemma PublishReachesOnce(reg: Registry, u: Topic, p: Payload, t: Topic, s: Subscriber)
    requires NoDuplicates(reg)
    ensures Received(Publish(reg, u, p), t, s) == if t == u && IsSubscribed(reg, t, s) then [p] else []
  {
    DeliverReachesOnce(Subscribers(reg, u), u, p, t, s);
  }

  /** The bytes of the byte payloads of a stream, concatenated in order. */
  function JoinBytes(ps: seq<Payload>): seq<byte> {
    if ps == [] then []
    else (if ps[0].BytesPayload? then ps[0].bytes else []) + JoinBytes(ps[1..])
  }

  /** The text of the string payloads of a stream, concatenated in order. */
  function JoinText(ps: seq<Payload>): string {
    if ps == [] then []
    else (if ps[0].StringPayload? then ps[0].text else []) + JoinText(ps[1..])
  }

  lemma {:induction false} JoinBytesAppend(a: seq<Payload>, b: seq<Payload>)
    ensures JoinBytes(a + b) == JoinBytes(a) + JoinBytes(b)
  {
    if a != [] {
      assert (a + b)[0] == a[0];
      assert (a + b)[1..] == a[1..] + b;
      JoinBytesAppend(a[1..], b);
    } else {
      assert a + b == b;
    }
  }

  lemma {:induction false} JoinTextAppend(a: seq<Payload>, b: seq<Payload>)
    ensures JoinText(a + b) == JoinText(a) + JoinText(b)
  {
    if a != [] {
      assert (a + b)[0] == a[0];
      assert (a + b)[1..] == a[1..] + b;
      JoinTextAppend(a[1..], b);
    } else {
      assert a + b == b;
    }
  }
}
